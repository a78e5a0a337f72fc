/**
 What the steps of a connector do, over the fields of its transactions and of the inputs: when a transaction
 starts, stops, ends, is sent and is given up, what an answer changes, and when charging is permitted.
 */
module JournalSteps {
  import opened Wrappers
  import opened Cyclic
  import opened Journal
  import opened JournalInvariant
  import opened JournalRuns
  import opened Units

  // ----- loop -----

  /** The EV was unplugged while the transaction was running. */
  predicate Disconnected(t: Tx, x: LoopInput) {
    x.hasPlugInput && !x.pluggedForStop && x.stopOnDisconnect && t.start.requested && !t.stop.requested
  }

  /** No EV was plugged in for too long before the transaction started. */
  predicate ConnectionTimeout(t: Tx, x: LoopInput) {
    x.hasPlugInput && !x.pluggedForTimeout && x.connectionTimedOut && !t.start.requested
  }

  /** The authorization was withdrawn; whether this ends a running transaction is configured. */
  predicate Revoked(t: Tx, x: LoopInput) {
    t.deauthorized && (!t.start.requested || x.stopOnInvalidId)
  }

  predicate Ends(t: Tx, x: LoopInput) { Disconnected(t, x) || ConnectionTimeout(t, x) || Revoked(t, x) }

  predicate Starts(t: Tx, x: LoopInput) {
    && !t.start.requested && t.active && t.authorized && !Ends(t, x)
    && (x.hasPlugInput ==> x.pluggedForStart) && x.operative && x.powerPathReady && x.startTxReady
  }

  predicate Stops(t: Tx, x: LoopInput) {
    t.start.requested && !t.stop.requested && (!t.active || Ends(t, x)) && x.stopTxReady
  }

  /** The process of the transaction is over: it was aborted, or its StopTx was triggered by an earlier call. */
  predicate IsOver(t: Tx) { (!t.start.requested && !t.active) || t.stop.requested }

  /** A requested message gets the operation number; that of a silent transaction is not sent. */
  function Requested(s: SendStatus, silent: bool, opNr: nat): SendStatus {
    SendStatus(true, s.confirmed || silent, opNr, s.attemptNr, s.attemptTime)
  }

  /** The transaction after a call of loop(). */
  function AfterLoop(t: Tx, x: LoopInput, opNr: nat): Tx {
    Tx(t.nr, t.active && !Ends(t, x), t.authorized, t.deauthorized, t.silent,
       if Starts(t, x) then Requested(t.start, t.silent, opNr) else t.start,
       if Stops(t, x) then Requested(t.stop, t.silent, opNr) else t.stop)
  }

  lemma DecideMeaning(t: Tx, x: LoopInput, opNr: nat)
    requires LifeCycle(t) && !IsOver(t)
    ensures Decide(t, x, opNr)
            == (AfterLoop(t, x, opNr), if Starts(t, x) then Start else if Stops(t, x) then Stop else Keep)
  {
  }

  lemma OverMeansCollected(j: Journal, removed: bool)
    requires Sound(j) && j.transaction.Some?
    ensures CurrentFits(j)
    ensures IsOver(j.objs[j.transaction.value]) ==> Collect(j, removed).transaction.None?
    ensures !IsOver(j.objs[j.transaction.value]) ==> Collect(j, removed) == j
    ensures Collect(j, removed).objs == j.objs
  {
    CurrentNumberFits(j);
    assert GoodObject(j, j.transaction.value);
  }

  /** What one call of loop() does to the transactions, and what it triggers. */
  lemma LoopMeaning(w: World, x: LoopInput)
    requires Sound(w.j)
    ensures var z := Do(w, LoopStep(x)); var trigger := TriggerOf(w, LoopStep(x));
            match w.j.transaction {
              case None => z == w && trigger == NoTrigger
              case Some(id) =>
                var t := w.j.objs[id];
                && (z.j.transaction == if IsOver(t) then None else Some(id))
                && z.j.objs == w.j.objs[id := AfterLoop(t, x, w.nextOp)]
                && trigger == (if Starts(t, x) then StartTrigger(id) else if Stops(t, x) then StopTrigger(id)
                               else NoTrigger)
                && z.nextOp == w.nextOp + if Starts(t, x) || Stops(t, x) then 1 else 0
            }
  {
    CurrentNumberFits(w.j);
    if w.j.transaction.Some? {
      var id := w.j.transaction.value;
      hide Collect, Decide;
      assert GoodObject(w.j, id);
      OverMeansCollected(w.j, x.removed);
      if IsOver(w.j.objs[id]) {
        OverStays(w.j.objs[id], x, w.nextOp);
        assert w.j.objs[id := w.j.objs[id]] == w.j.objs;
      } else {
        DecideMeaning(w.j.objs[id], x, w.nextOp);
      }
    }
  }

  lemma OverStays(t: Tx, x: LoopInput, opNr: nat)
    requires LifeCycle(t) && IsOver(t)
    ensures AfterLoop(t, x, opNr) == t && !Starts(t, x) && !Stops(t, x)
  {
  }

  /** The record of the current transaction, and with it its number, is given back. */
  predicate RollsBack(j: Journal, t: Tx, x: LoopInput) {
    x.removed && ((!t.start.requested && !t.active && j.cleanAborted) || (t.silent && t.stop.requested))
  }

  /** z is j, without the record of the current transaction if it is given back. */
  ghost predicate WindowMoved(j: Journal, z: Journal, x: LoopInput)
    requires j.Valid()
  {
    && z.m == j.m && z.size == j.size && z.begin == j.begin && z.transactionFront == j.transactionFront
    && (if j.transaction.Some? && RollsBack(j, j.objs[j.transaction.value], x) then
          var nr := j.objs[j.transaction.value].nr;
          z.store == j.store - {nr} && z.end == nr && z.front == (if j.front == j.end then nr else j.front)
        else z.store == j.store && z.end == j.end && z.front == j.front)
  }

  lemma CollectMovesWindow(j: Journal, x: LoopInput)
    requires j.Valid() && CurrentFits(j)
    ensures WindowMoved(j, Collect(j, x.removed), x)
  {
  }

  lemma LoopIsCollect(j: Journal, x: LoopInput, nextOp: nat)
    requires j.Valid() && CurrentFits(j)
    ensures var z, c := Loop(j, x, nextOp).0, Collect(j, x.removed);
            && z.m == c.m && z.size == c.size && z.begin == c.begin && z.front == c.front && z.end == c.end
            && z.store == c.store && z.transactionFront == c.transactionFront
  {
    hide Collect, Decide;
  }

  /** What one call of loop() does to the window. */
  lemma LoopMovesWindow(w: World, x: LoopInput)
    requires Sound(w.j)
    ensures WindowMoved(w.j, Do(w, LoopStep(x)).j, x)
  {
    hide Collect, Loop;
    CurrentNumberFits(w.j);
    CollectMovesWindow(w.j, x);
    LoopIsCollect(w.j, x, w.nextOp);
  }

  // ----- loop in a run -----

  /** StartTx is triggered exactly for a current transaction that may start. */
  lemma StartIsTriggeredIff(ws: seq<World>, ss: seq<Step>, i: nat, id: nat)
    requires Run(ws, ss) && i < |ss| && ss[i].LoopStep?
    ensures TriggerOf(ws[i], ss[i]) == StartTrigger(id) <==>
              ws[i].j.transaction == Some(id) && id < |ws[i].j.objs| &&
              var t, x := ws[i].j.objs[id], ss[i].input;
              && t.active && t.authorized && !t.deauthorized && !t.start.requested
              && (x.hasPlugInput ==> x.pluggedForStart && (x.pluggedForTimeout || !x.connectionTimedOut))
              && x.operative && x.powerPathReady && x.startTxReady
  {
    RunIsSound(ws, ss, i);
    LoopMeaning(ws[i], ss[i].input);
  }

  /** StopTx is triggered exactly for a current, running transaction that has ended, or ends in this call. */
  lemma StopIsTriggeredIff(ws: seq<World>, ss: seq<Step>, i: nat, id: nat)
    requires Run(ws, ss) && i < |ss| && ss[i].LoopStep?
    ensures TriggerOf(ws[i], ss[i]) == StopTrigger(id) <==>
              ws[i].j.transaction == Some(id) && id < |ws[i].j.objs| &&
              var t, x := ws[i].j.objs[id], ss[i].input;
              && t.start.requested && !t.stop.requested && x.stopTxReady
              && (!t.active || (x.hasPlugInput && !x.pluggedForStop && x.stopOnDisconnect)
                  || (t.deauthorized && x.stopOnInvalidId))
  {
    RunIsSound(ws, ss, i);
    LoopMeaning(ws[i], ss[i].input);
  }

  /** loop() ends an active transaction exactly in these cases, and it must be the current one. */
  lemma LoopEndsIff(ws: seq<World>, ss: seq<Step>, i: nat, id: nat)
    requires Run(ws, ss) && i < |ss| && ss[i].LoopStep? && id < |ws[i].j.objs| && ws[i].j.objs[id].active
    ensures id < |ws[i + 1].j.objs|
    ensures !ws[i + 1].j.objs[id].active <==>
              ws[i].j.transaction == Some(id) &&
              var t, x := ws[i].j.objs[id], ss[i].input;
              || (t.start.requested && x.hasPlugInput && !x.pluggedForStop && x.stopOnDisconnect)
              || (!t.start.requested && x.hasPlugInput && !x.pluggedForTimeout && x.connectionTimedOut)
              || (t.deauthorized && (!t.start.requested || x.stopOnInvalidId))
  {
    RunTakes(ws, ss, i);
    LoopMeaning(ws[i], ss[i].input);
    assert GoodObject(ws[i].j, id);
  }

  // ----- sending -----

  function AtLeastZero(interval: int): nat { if interval < 0 then 0 else interval }

  /** The attempts made so far, each with the retry interval, have passed since the latest one. */
  predicate IsDue(s: SendStatus, x: FetchInput) {
    s.attemptTime + s.attemptNr * AtLeastZero(x.retryInterval) <= x.now
  }

  predicate StartIsPending(t: Tx) { !t.silent && t.start.requested && !t.start.confirmed }

  predicate StopIsPending(t: Tx) { !t.silent && t.start.confirmed && t.stop.requested && !t.stop.confirmed }

  predicate SendsStart(t: Tx, x: FetchInput) {
    StartIsPending(t) && !x.startTimeLost && t.start.attemptNr < x.maxAttempts && IsDue(t.start, x)
  }

  predicate SendsStop(t: Tx, x: FetchInput) {
    StopIsPending(t) && t.stop.attemptNr < x.maxAttempts && IsDue(t.stop, x)
  }

  predicate GivesUpStart(t: Tx, x: FetchInput) {
    StartIsPending(t) && (x.startTimeLost || t.start.attemptNr >= x.maxAttempts)
  }

  predicate GivesUpStop(t: Tx, x: FetchInput) { StopIsPending(t) && t.stop.attemptNr >= x.maxAttempts }

  function Attempted(s: SendStatus, now: int): SendStatus {
    SendStatus(s.requested, s.confirmed, s.opNr, s.attemptNr + 1, now)
  }

  /** The front transaction after a fetch. When nothing is due, it is as before. */
  function AfterFetch(t: Tx, x: FetchInput): Tx {
    Tx(t.nr, t.active && !GivesUpStart(t, x), t.authorized, t.deauthorized,
       t.silent || GivesUpStart(t, x) || GivesUpStop(t, x),
       if SendsStart(t, x) then Attempted(t.start, x.now) else t.start,
       if SendsStop(t, x) then Attempted(t.stop, x.now) else t.stop)
  }

  lemma FetchStartMeaning(t: Tx, x: FetchInput)
    requires StartIsPending(t)
    ensures FetchStart(t, x) == FetchResult(AfterFetch(t, x), SendsStart(t, x))
  {
    RetryDelayIsProduct(t.start.attemptNr, x.retryInterval);
  }

  lemma FetchStopMeaning(t: Tx, x: FetchInput)
    requires StopIsPending(t)
    ensures FetchStop(t, x) == FetchResult(AfterFetch(t, x), SendsStop(t, x))
  {
    RetryDelayIsProduct(t.stop.attemptNr, x.retryInterval);
  }

  /** What fetchFrontRequest does, and which message it hands out. */
  lemma FetchMeaning(w: World, x: FetchInput)
    requires Sound(w.j)
    ensures var z := Do(w, FetchStep(x)); var message := MessageOf(w, FetchStep(x));
            match w.j.transactionFront {
              case None => z == w && message == None
              case Some(id) =>
                var t := w.j.objs[id];
                && z == w.(j := w.j.(objs := w.j.objs[id := AfterFetch(t, x)]))
                && message == (if SendsStart(t, x) then Some(StartTx(id)) else if SendsStop(t, x) then Some(StopTx(id))
                               else None)
            }
  {
    if w.j.transactionFront.Some? {
      var id := w.j.transactionFront.value;
      var t := w.j.objs[id];
      assert GoodObject(w.j, id);
      hide FetchStart, FetchStop, RetryDelay, IsDue;
      if StartIsPending(t) {
        FetchStartMeaning(t, x);
      } else if StopIsPending(t) {
        FetchStopMeaning(t, x);
      } else {
        assert AfterFetch(t, x) == t && w.j.objs[id := t] == w.j.objs;
      }
    }
  }

  /** StartTx is handed out exactly if it is pending at the front, attempts are left, and the next one is due. */
  lemma StartIsHandedOutIff(ws: seq<World>, ss: seq<Step>, i: nat, id: nat)
    requires Run(ws, ss) && i < |ss| && ss[i].FetchStep?
    ensures MessageOf(ws[i], ss[i]) == Some(StartTx(id)) <==>
              ws[i].j.transactionFront == Some(id) && id < |ws[i].j.objs| &&
              var t, x := ws[i].j.objs[id], ss[i].fetch;
              && !t.silent && t.start.requested && !t.start.confirmed
              && !x.startTimeLost && t.start.attemptNr < x.maxAttempts
              && t.start.attemptTime + t.start.attemptNr * AtLeastZero(x.retryInterval) <= x.now
  {
    RunIsSound(ws, ss, i);
    FetchMeaning(ws[i], ss[i].fetch);
  }

  lemma StopIsHandedOutIff(ws: seq<World>, ss: seq<Step>, i: nat, id: nat)
    requires Run(ws, ss) && i < |ss| && ss[i].FetchStep?
    ensures MessageOf(ws[i], ss[i]) == Some(StopTx(id)) <==>
              ws[i].j.transactionFront == Some(id) && id < |ws[i].j.objs| &&
              var t, x := ws[i].j.objs[id], ss[i].fetch;
              && !t.silent && t.start.confirmed && t.stop.requested && !t.stop.confirmed
              && t.stop.attemptNr < x.maxAttempts
              && t.stop.attemptTime + t.stop.attemptNr * AtLeastZero(x.retryInterval) <= x.now
  {
    RunIsSound(ws, ss, i);
    FetchMeaning(ws[i], ss[i].fetch);
  }

  // ----- answers -----

  /** The answer to Authorize, or its timeout, allows the transaction. */
  predicate Grants(a: AuthAnswer) {
    match a
    case AuthConf(accepted, reserved) => accepted && !reserved
    case AuthTimeout(blocked, local, unknown) => !blocked && (local || unknown)
  }

  /** The answer to Authorize or StartTransaction refuses the tag. */
  predicate Refuses(a: Reply) { a == StartReply(false) || (a.AuthReply? && a.answer.AuthConf? && !a.answer.accepted) }

  /** The answer to Authorize, or its timeout, ends the transaction without refusing the tag. */
  predicate Withdraws(a: Reply) { a.AuthReply? && !Grants(a.answer) && !Refuses(a) }

  /** A message was aborted after its last attempt. */
  predicate Exhausts(t: Tx, a: Reply) {
    || (a.StartAborted? && t.start.attemptNr >= a.maxAttempts)
    || (a.StopAborted? && t.stop.attemptNr >= a.maxAttempts)
  }

  /** Which fields an answer changes. */
  lemma ReplyMeaning(t: Tx, a: Reply)
    ensures ApplyReply(t, a)
            == Tx(t.nr, t.active && !Withdraws(a) && !Exhausts(t, a),
                  t.authorized || (a.AuthReply? && Grants(a.answer)), t.deauthorized || Refuses(a),
                  t.silent || Exhausts(t, a),
                  t.start.(confirmed := t.start.confirmed || a.StartReply?),
                  t.stop.(confirmed := t.stop.confirmed || a.StopReply?))
  {
  }

  // ----- charging -----

  /** Charging is permitted exactly in these cases. */
  lemma ChargingIsPermittedIff(j: Journal, freeVend: bool, startOnPowerPathClosed: bool)
    requires j.Valid()
    ensures PermitsCharge(j, freeVend, startOnPowerPathClosed) <==>
              j.transaction.Some? &&
              var t := j.objs[j.transaction.value];
              && t.active && (t.deauthorized ==> freeVend)
              && (if startOnPowerPathClosed then t.authorized else t.start.requested && !t.stop.requested)
  {
  }

  // ----- one transaction, one step -----

  /** The step gives transaction id up: its last attempt failed, or its start time is lost. */
  ghost predicate GivesUp(w: World, s: Step, id: nat)
    requires w.j.Valid() && id < |w.j.objs|
  {
    var t := w.j.objs[id];
    || (s.FetchStep? && w.j.transactionFront == Some(id) && (GivesUpStart(t, s.fetch) || GivesUpStop(t, s.fetch)))
    || (s.ReplyStep? && s.id == id && Exhausts(t, s.reply))
  }

  /** The step ends the process of transaction id. */
  ghost predicate EndsProcess(w: World, s: Step, id: nat)
    requires w.j.Valid() && id < |w.j.objs|
  {
    var t := w.j.objs[id];
    || (s.EndStep? && w.j.transaction == Some(id))
    || (s.LoopStep? && w.j.transaction == Some(id) && Ends(t, s.input))
    || (s.FetchStep? && w.j.transactionFront == Some(id) && GivesUpStart(t, s.fetch))
    || (s.ReplyStep? && s.id == id && (Withdraws(s.reply) || Exhausts(t, s.reply)))
  }

  /** Which flags of a transaction a step changes, from t to u. */
  ghost predicate FlagsChange(w: World, s: Step, id: nat, t: Tx, u: Tx)
    requires w.j.Valid() && id < |w.j.objs|
  {
    var reply := s.ReplyStep? && s.id == id;
    && (u.active <==> t.active && !EndsProcess(w, s, id))
    && (u.authorized <==> t.authorized || (reply && s.reply.AuthReply? && Grants(s.reply.answer)))
    && (u.deauthorized <==> t.deauthorized || (reply && Refuses(s.reply)))
    && (u.silent <==> t.silent || GivesUp(w, s, id))
    && (u.start.requested <==> t.start.requested || TriggerOf(w, s) == StartTrigger(id))
    && (u.stop.requested <==> t.stop.requested || TriggerOf(w, s) == StopTrigger(id))
    && (u.start.confirmed <==> t.start.confirmed || (reply && s.reply.StartReply?)
                               || (t.silent && TriggerOf(w, s) == StartTrigger(id)))
    && (u.stop.confirmed <==> t.stop.confirmed || (reply && s.reply.StopReply?)
                              || (t.silent && TriggerOf(w, s) == StopTrigger(id)))
  }

  lemma LoopChanges(w: World, x: LoopInput, id: nat)
    requires Sound(w.j) && id < |w.j.objs|
    ensures var z := Do(w, LoopStep(x)).j;
            id < |z.objs| && FlagsChange(w, LoopStep(x), id, w.j.objs[id], z.objs[id])
  {
    hide Loop, Do, TriggerOf;
    LoopMeaning(w, x);
  }

  lemma FetchChanges(w: World, x: FetchInput, id: nat)
    requires Sound(w.j) && id < |w.j.objs|
    ensures var z := Do(w, FetchStep(x)).j;
            id < |z.objs| && FlagsChange(w, FetchStep(x), id, w.j.objs[id], z.objs[id])
  {
    hide Fetch, Do, IsDue;
    FetchMeaning(w, x);
  }

  lemma ReplyChanges(w: World, k: nat, a: Reply, id: nat)
    requires Sound(w.j) && Enabled(w, ReplyStep(k, a)) && id < |w.j.objs|
    ensures var z := Do(w, ReplyStep(k, a)).j;
            id < |z.objs| && FlagsChange(w, ReplyStep(k, a), id, w.j.objs[id], z.objs[id])
  {
    hide ApplyReply, Grants, Refuses, Withdraws, Exhausts, Ends, GivesUpStart, GivesUpStop;
    ReplyMeaning(w.j.objs[k], a);
  }

  lemma BeginChanges(w: World, authorized: bool, env: AllocEnv, id: nat)
    requires Sound(w.j) && id < |w.j.objs|
    ensures var z := Do(w, BeginStep(authorized, env)).j;
            id < |z.objs| && FlagsChange(w, BeginStep(authorized, env), id, w.j.objs[id], z.objs[id])
  {
    hide Begin, MakeRoom;
    BeginKeepsOthers(w.j, authorized, env);
  }

  lemma EndOrPollChanges(w: World, s: Step, id: nat)
    requires Sound(w.j) && (s.EndStep? || s.PollStep?) && id < |w.j.objs|
    ensures var z := Do(w, s).j; id < |z.objs| && FlagsChange(w, s, id, w.j.objs[id], z.objs[id])
  {
    hide Poll;
    PollKeepsRecords(w.j);
  }

  lemma StepChanges(w: World, s: Step, id: nat)
    requires Sound(w.j) && Enabled(w, s) && id < |w.j.objs|
    ensures id < |Do(w, s).j.objs| && FlagsChange(w, s, id, w.j.objs[id], Do(w, s).j.objs[id])
  {
    hide Do, FlagsChange;
    match s
    case LoopStep(x) => LoopChanges(w, x, id);
    case BeginStep(authorized, env) => BeginChanges(w, authorized, env, id);
    case EndStep => EndOrPollChanges(w, s, id);
    case PollStep => EndOrPollChanges(w, s, id);
    case FetchStep(x) => FetchChanges(w, x, id);
    case ReplyStep(k, a) => ReplyChanges(w, k, a, id);
  }

  /** A begin call leaves the transactions as they are. If it creates one, that is the next one, and current. */
  lemma BeginKeepsOthers(j: Journal, authorized: bool, env: AllocEnv)
    requires Sound(j)
    ensures var r := Begin(j, authorized, env);
            if j.transaction.Some? || MakeRoom(j, env).1.NoRoom? then r.objs == j.objs
            else
              var nr, silent := MakeRoom(j, env).0.end, MakeRoom(j, env).1.Silent?;
              var unsent := SendStatus(false, false, 0, 0, MIN_TIME);
              && r.objs == j.objs + [Tx(nr, true, authorized, false, silent, unsent, unsent)]
              && r.transaction == Some(|j.objs|)
  {
    if j.transaction.None? {
      hide MakeRoom;
      MakeRoomKeepsInv(j, env);
    }
  }

  /** A step adds a transaction exactly if it creates one. */
  lemma CreationAdds(w: World, s: Step)
    requires Sound(w.j) && Enabled(w, s)
    ensures var z := Do(w, s).j;
            if !CreatesTransaction(w, s) then |z.objs| == |w.j.objs|
            else
              && |z.objs| == |w.j.objs| + 1 && z.transaction == Some(|w.j.objs|)
              && var t := z.objs[|w.j.objs|];
                 && t.active && t.authorized == s.authorized && !t.deauthorized
                 && !t.start.requested && !t.stop.requested
                 && t.start.attemptNr == 0 && t.stop.attemptNr == 0
  {
    hide Loop, Begin, Fetch, ApplyReply, MakeRoom;
    match s
    case LoopStep(x) => LoopMeaning(w, x);
    case BeginStep(authorized, env) => BeginKeepsOthers(w.j, authorized, env);
    case EndStep =>
    case PollStep => PollKeepsRecords(w.j);
    case FetchStep(x) => FetchMeaning(w, x);
    case ReplyStep(k, a) =>
  }

  // ----- polling -----

  /** Nothing of the transaction is left to send: it was never started and is over, or is confirmed, or silent. */
  predicate HasNothingToSend(t: Tx) { (!t.start.requested && !t.active) || t.stop.confirmed || t.silent }

  /** The number n steps behind nr. */
  function Behind(nr: nat, n: nat, m: nat): (r: nat)
    requires nr < m
    ensures r < m
    decreases n
  {
    if n == 0 then nr else Behind(if nr + 1 == m then 0 else nr + 1, n - 1, m)
  }

  /** The record at that number has nothing to send. */
  predicate Passable(j: Journal, nr: nat)
    requires j.Valid()
  {
    nr in j.store && HasNothingToSend(j.objs[j.store[nr]])
  }

  /** The front moved over n records that have nothing to send, and no further than needed. */
  ghost predicate FrontMoved(j: Journal, r: Journal, n: nat)
    requires j.Valid() && r.Valid()
  {
    && r.m == j.m && r.store == j.store && r.objs == j.objs && r.end == j.end && r.begin == j.begin
    && n <= Dist(j.front, j.end, j.m) && r.front == Behind(j.front, n, j.m)
    && (forall x: nat :: x < n ==> Passable(j, Behind(j.front, x, j.m)))
    && (if r.transactionFront.None? then r.front == r.end || r.front !in r.store
        else r.front != r.end && r.front in r.store && r.store[r.front] == r.transactionFront.value
             && !HasNothingToSend(r.objs[r.transactionFront.value]))
  }

  lemma {:induction false} AdvanceMovesFront(j: Journal, k: nat) returns (n: nat)
    requires Inv(j) && k == Dist(j.front, j.end, j.m) && (k == 0 ==> j.transactionFront.None?)
    ensures FrontMoved(j, AdvanceFront(j, k), n)
    decreases k
  {
    hide Ordered, GoodStore, CurrentIsNewest, OthersSettled, GoodObjects, PointerIsFront, HistoryDone, FrontMoved;
    n := 0;
    if k == 0 {
      FrontAtEnd(j);
    } else {
      var j1 := if j.transactionFront.None? then j.(transactionFront := j.Lookup(j.front)) else j;
      LoadKeepsInv(j);
      if j1.transactionFront.Some? && j1.objs[j1.transactionFront.value].IsDone() {
        SkipKeepsInv(j1);
        var j2 := j1.(transactionFront := None, front := Next(j1.front, j1.m));
        var rest := AdvanceMovesFront(j2, k - 1);
        n := rest + 1;
        FrontMovedOnce(j, j2, AdvanceFront(j2, k - 1), rest);
      } else {
        FrontLoaded(j, j1);
      }
    }
  }

  lemma FrontAtEnd(j: Journal)
    requires j.Valid() && j.transactionFront.None? && Dist(j.front, j.end, j.m) == 0
    ensures FrontMoved(j, AdvanceFront(j, 0), 0)
  {
  }

  lemma FrontLoaded(j: Journal, j1: Journal)
    requires j.Valid() && FrontPointer(j) && j.front != j.end
    requires j1 == if j.transactionFront.None? then j.(transactionFront := j.Lookup(j.front)) else j
    requires j1.transactionFront.Some? ==> !j1.objs[j1.transactionFront.value].IsDone()
    ensures FrontMoved(j, j1, 0)
  {
  }

  lemma FrontMovedOnce(j: Journal, j2: Journal, r: Journal, rest: nat)
    requires j.Valid() && j.front != j.end && Passable(j, j.front) && r.Valid()
    requires j2 == j.(transactionFront := None, front := Next(j.front, j.m)) && FrontMoved(j2, r, rest)
    ensures FrontMoved(j, r, rest + 1)
  {
    hide Passable;
    forall x: nat | x < rest + 1 ensures Passable(j, Behind(j.front, x, j.m)) {
      if x > 0 {
        var y: nat := x - 1;
        assert Passable(j2, Behind(j2.front, y, j.m));
        PassableIgnoresFront(j, j2, Behind(j2.front, y, j.m));
      }
    }
  }

  lemma PassableIgnoresFront(j: Journal, j2: Journal, nr: nat)
    requires j.Valid() && j2.Valid() && j2.store == j.store && j2.objs == j.objs && Passable(j2, nr)
    ensures Passable(j, nr)
  {
  }

  /** What a poll does to the front of the queue. */
  lemma PollMeaning(j: Journal) returns (n: nat)
    requires Inv(j)
    ensures FrontMoved(j, Poll(j), n)
  {
    var k := Dist(j.front, j.end, j.m);
    LoadKeepsInv(j);
    n := AdvanceMovesFront(if k == 0 then j.(transactionFront := None) else j, k);
  }
}
