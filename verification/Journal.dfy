/**
 The transaction journal of one connector, as functions on its state.

 Transaction objects are shared between the connector, its front pointer, the store and the listeners
 of pending requests. They live in objs and are referred to by their position, so that two references
 to one object are two equal numbers. The store maps transaction numbers to objects; an object that
 was removed from the store can still be referenced.

 Answers of the environment (inputs, configuration, the file system) are arguments.
 */
module Journal {
  import opened Wrappers
  import opened Cyclic
  import opened Selection
  import opened Units

  /** How far the StartTx or StopTx of a transaction got. */
  datatype SendStatus = SendStatus(requested: bool, confirmed: bool, opNr: nat, attemptNr: nat, attemptTime: int)

  /** The part of a transaction that decides about its life cycle and its messages. */
  datatype Tx = Tx(
    nr: nat,
    active: bool,
    authorized: bool,
    deauthorized: bool,
    silent: bool,
    start: SendStatus,
    stop: SendStatus)
  {
    predicate IsRunning() { start.requested && !stop.requested }
    predicate IsAborted() { !start.requested && !active }
    predicate IsCompleted() { stop.confirmed }

    /** Nothing of this transaction will be sent (any more). */
    predicate IsDone() { IsAborted() || IsCompleted() || silent }

    /** The server still has to learn about this transaction. */
    predicate IsOwed() { start.requested && !stop.confirmed && !silent }
  }

  /** The time of the latest attempt is MIN_TIME at first. */
  const NOT_REQUESTED := SendStatus(false, false, 0, 0, MIN_TIME)

  function NewTx(nr: nat, silent: bool): Tx {
    Tx(nr, true, false, false, silent, NOT_REQUESTED, NOT_REQUESTED)
  }

  /**
   m is MAX_TX_CNT and size is MO_TXRECORD_SIZE. The numbers begin, front and end delimit the history
   [begin, front) and the outgoing queue [front, end).
   */
  datatype Journal = Journal(
    m: nat,
    size: nat,
    cleanAborted: bool,
    begin: nat,
    front: nat,
    end: nat,
    transaction: Option<nat>,
    transactionFront: Option<nat>,
    store: map<nat, nat>,
    objs: seq<Tx>)
  {
    ghost predicate Valid() {
      && 1 <= size && 2 * size < m
      && begin < m && front < m && end < m
      && (forall nr :: nr in store ==> store[nr] < |objs|)
      && (transaction.Some? ==> transaction.value < |objs|)
      && (transactionFront.Some? ==> transactionFront.value < |objs|)
    }

    function WindowSize(): nat
      requires Valid()
    {
      Dist(begin, end, m)
    }

    function Lookup(nr: nat): (id: Option<nat>)
      requires Valid()
      ensures id.Some? ==> id.value < |objs|
    {
      if nr in store then Some(store[nr]) else None
    }

    function Remove(nr: nat): (j: Journal)
      requires Valid()
      ensures j.Valid()
    {
      this.(store := store - {nr})
    }

    /** createTransaction at number end; the new object is referenced by |objs|. */
    function Create(silent: bool): (j: Journal)
      requires Valid()
      ensures j.Valid()
    {
      this.(store := store[end := |objs|], objs := objs + [NewTx(end, silent)])
    }

    function Update(id: nat, t: Tx): (j: Journal)
      requires Valid() && id < |objs|
      ensures j.Valid()
    {
      this.(objs := objs[id := t])
    }
  }

  // ----- the loop of the connector -----

  /** All inputs read by one call of loop(); the plug input may change between its readings. */
  datatype LoopInput = LoopInput(
    removed: bool,
    hasPlugInput: bool,
    pluggedForStop: bool,
    pluggedForTimeout: bool,
    pluggedForStart: bool,
    stopOnDisconnect: bool,
    connectionTimedOut: bool,
    stopOnInvalidId: bool,
    operative: bool,
    powerPathReady: bool,
    startTxReady: bool,
    stopTxReady: bool)

  datatype Trigger = NoTrigger | StartTrigger(id: nat) | StopTrigger(id: nat)

  /** Delete the current transaction if it was aborted, or was silent and has stopped. */
  function CollectRolledBack(j: Journal, removed: bool): (r: Journal)
    requires j.Valid() && (j.transaction.Some? ==> j.objs[j.transaction.value].nr < j.m)
    ensures r.Valid()
  {
    if j.transaction.None? then j
    else
      var t := j.objs[j.transaction.value];
      if !((t.IsAborted() && j.cleanAborted) || (t.silent && t.stop.requested)) then j
      else if !removed then j.(transaction := None)
      else
        j.Remove(t.nr).(front := if j.front == j.end then t.nr else j.front, end := t.nr, transaction := None)
  }

  /** Let go of the current transaction if it was aborted or its StopTx is on its way. */
  function CollectEnded(j: Journal): (r: Journal)
    requires j.Valid()
    ensures r.Valid()
  {
    if j.transaction.Some? && (j.objs[j.transaction.value].IsAborted() || j.objs[j.transaction.value].stop.requested)
    then j.(transaction := None)
    else j
  }

  /** EV disconnect, connection timeout and revoked authorization end the transaction process. */
  function Deactivate(t: Tx, i: LoopInput): Tx {
    var t1 := if i.hasPlugInput && t.IsRunning() && t.active && !i.pluggedForStop && i.stopOnDisconnect
              then t.(active := false) else t;
    var t2 := if i.hasPlugInput && t1.active && !t1.start.requested && !i.pluggedForTimeout && i.connectionTimedOut
              then t1.(active := false) else t1;
    if t2.active && t2.deauthorized && (!t2.IsRunning() || i.stopOnInvalidId) then t2.(active := false) else t2
  }

  predicate MayStart(t: Tx, i: LoopInput) {
    t.active && t.authorized && (!i.hasPlugInput || i.pluggedForStart) &&
    i.operative && i.powerPathReady && i.startTxReady
  }

  function RequestStart(t: Tx, opNr: nat): Tx {
    t.(start := t.start.(requested := true, opNr := opNr, confirmed := t.start.confirmed || t.silent))
  }

  function RequestStop(t: Tx, opNr: nat): Tx {
    t.(stop := t.stop.(requested := true, opNr := opNr, confirmed := t.stop.confirmed || t.silent))
  }

  datatype Action = Keep | Start | Stop

  /** What loop() does to the current transaction, and whether this triggers StartTx or StopTx. */
  function Decide(t: Tx, i: LoopInput, opNr: nat): (Tx, Action) {
    var u := Deactivate(t, i);
    if !u.IsRunning() then
      if MayStart(u, i) then (RequestStart(u, opNr), Start) else (u, Keep)
    else
      if !u.active && i.stopTxReady then (RequestStop(u, opNr), Stop) else (u, Keep)
  }

  /** Let go of a current transaction whose process is over. */
  function Collect(j: Journal, removed: bool): (r: Journal)
    requires j.Valid() && (j.transaction.Some? ==> j.objs[j.transaction.value].nr < j.m)
    ensures r.Valid()
  {
    CollectEnded(CollectRolledBack(j, removed))
  }

  /** The transaction-related part of loop(). nextOp is the next unused operation number. */
  function Loop(j: Journal, i: LoopInput, nextOp: nat): (r: (Journal, Trigger, nat))
    requires j.Valid() && (j.transaction.Some? ==> j.objs[j.transaction.value].nr < j.m)
    ensures r.0.Valid()
  {
    var j1 := Collect(j, i.removed);
    if j1.transaction.None? then (j1, NoTrigger, nextOp)
    else
      var id := j1.transaction.value;
      var (t, action) := Decide(j1.objs[id], i, nextOp);
      var j2 := j1.Update(id, t);
      match action
      case Keep => (j2, NoTrigger, nextOp)
      case Start => (j2, StartTrigger(id), nextOp + 1)
      case Stop => (j2, StopTrigger(id), nextOp + 1)
  }

  // ----- allocation -----

  /** Outcome of every file operation of one allocation, by position in its two loops. */
  datatype AllocEnv = AllocEnv(
    trimOk: nat -> bool,
    createOk: bool,
    historyRemoveOk: nat -> bool,
    historyCreateOk: nat -> bool,
    silentOffline: bool,
    silentCreateOk: bool)

  predicate TrimsBack(t: Tx, cleanAborted: bool) { t.silent || (t.IsAborted() && cleanAborted) }

  predicate TrimsHistory(t: Tx) { t.IsCompleted() || t.IsAborted() || (t.silent && t.stop.requested) }

  /** Remove silent, aborted and unreadable transactions from the end, at most k of them. */
  function TrimBack(j: Journal, k: nat, i: nat, env: AllocEnv): (r: Journal)
    requires j.Valid()
    ensures r.Valid()
    decreases k
  {
    if k == 0 then j
    else
      var txr := Prev(j.end, j.m);
      var tx := j.Lookup(txr);
      if (tx.None? || TrimsBack(j.objs[tx.value], j.cleanAborted)) && env.trimOk(i) then
        TrimBack(j.Remove(txr).(front := if j.front == j.end then txr else j.front, end := txr), k - 1, i + 1, env)
      else j
  }

  /** Remove entries from the beginning, at most k of them, until a transaction can be created. */
  function TrimHistory(j: Journal, k: nat, i: nat, env: AllocEnv): (r: (Journal, bool))
    requires j.Valid()
    ensures r.0.Valid()
    decreases k
  {
    if k == 0 then (j, false)
    else
      var tx := j.Lookup(j.begin);
      if (tx.None? || TrimsHistory(j.objs[tx.value])) && env.historyRemoveOk(i) then
        var next := Next(j.begin, j.m);
        var j1 := j.Remove(j.begin).(begin := next, front := if j.front == j.begin then next else j.front);
        if env.historyCreateOk(i) then (j1, true) else TrimHistory(j1, k - 1, i + 1, env)
      else (j, false)
  }

  /**
   How room is made for a new transaction: the journal before its record is created, and whether a
   regular record, a silent record or no record is created.
   */
  datatype Room = Regular | Silent | NoRoom

  function MakeRoom(j: Journal, env: AllocEnv): (r: (Journal, Room))
    requires j.Valid()
    ensures r.0.Valid()
  {
    var j1 := TrimBack(j, j.WindowSize(), 0, env);
    if j1.WindowSize() < j1.size && env.createOk then (j1, Regular)
    else
      var (j2, ok) := TrimHistory(j1, j1.WindowSize(), 0, env);
      if ok then (j2, Regular)
      else if env.silentOffline && env.silentCreateOk then (j2, Silent)
      else (j2, NoRoom)
  }

  /** Create the record at number end and advance end. The new object is the last one of objs. */
  function Append(j: Journal, silent: bool): (r: Journal)
    requires j.Valid()
    ensures r.Valid()
  {
    j.Create(silent).(end := Next(j.end, j.m))
  }

  /** allocateTransaction. */
  function Allocate(j: Journal, env: AllocEnv): (r: (Journal, Option<nat>))
    requires j.Valid()
    ensures r.0.Valid()
    ensures r.1.Some? ==> r.1.value < |r.0.objs|
  {
    var (j1, room) := MakeRoom(j, env);
    if room.NoRoom? then (j1, None) else (Append(j1, room.Silent?), Some(|j1.objs|))
  }

  /** beginTransaction and beginTransaction_authorized, after the reservation check. */
  function Begin(j: Journal, authorized: bool, env: AllocEnv): (r: Journal)
    requires j.Valid()
    ensures r.Valid()
  {
    if j.transaction.Some? then j
    else
      var (j1, id) := Allocate(j, env);
      if id.None? then j1
      else j1.Update(id.value, j1.objs[id.value].(authorized := authorized)).(transaction := id)
  }

  function End(j: Journal): (r: Journal)
    requires j.Valid()
    ensures r.Valid()
  {
    if j.transaction.Some? && j.objs[j.transaction.value].active
    then j.Update(j.transaction.value, j.objs[j.transaction.value].(active := false))
    else j
  }

  /** May the connector supply power? */
  predicate PermitsCharge(j: Journal, freeVend: bool, startOnPowerPathClosed: bool)
    requires j.Valid()
  {
    j.transaction.Some? &&
    var t := j.objs[j.transaction.value];
    var suspended := t.deauthorized && !freeVend;
    if startOnPowerPathClosed then t.active && t.authorized && !suspended
    else t.IsRunning() && t.active && !suspended
  }

  // ----- sending -----

  /** Skip transactions at the front that are done, at most k of them. */
  function AdvanceFront(j: Journal, k: nat): (r: Journal)
    requires j.Valid()
    ensures r.Valid()
    decreases k
  {
    if k == 0 then j
    else
      var j1 := if j.transactionFront.None? then j.(transactionFront := j.Lookup(j.front)) else j;
      if j1.transactionFront.Some? && j1.objs[j1.transactionFront.value].IsDone()
      then AdvanceFront(j1.(transactionFront := None, front := Next(j1.front, j1.m)), k - 1)
      else j1
  }

  /** The state change of getFrontRequestOpNr. */
  function Poll(j: Journal): (r: Journal)
    requires j.Valid()
    ensures r.Valid()
  {
    var k := Dist(j.front, j.end, j.m);
    AdvanceFront(if k == 0 then j.(transactionFront := None) else j, k)
  }

  /** The result of getFrontRequestOpNr, in the state after Poll. */
  function FrontOp(j: Journal): nat
    requires j.Valid()
  {
    if j.transactionFront.None? then NO_OPERATION
    else
      var t := j.objs[j.transactionFront.value];
      if t.start.requested && !t.start.confirmed then t.start.opNr
      else if t.stop.requested && !t.stop.confirmed then t.stop.opNr
      else NO_OPERATION
  }

  datatype FetchInput = FetchInput(now: int, maxAttempts: int, retryInterval: int, startTimeLost: bool)

  datatype Message = StartTx(id: nat) | StopTx(id: nat)

  function Max(a: int, b: int): int { if a < b then b else a }

  /** attempts * max(0, interval), without a product of two variables. */
  function RetryDelay(attempts: nat, interval: int): int {
    if attempts == 0 then 0 else RetryDelay(attempts - 1, interval) + Max(0, interval)
  }

  lemma {:induction false} RetryDelayIsProduct(attempts: nat, interval: int)
    ensures RetryDelay(attempts, interval) == attempts * Max(0, interval)
  {
    if attempts > 0 {
      RetryDelayIsProduct(attempts - 1, interval);
      assert attempts * Max(0, interval) == (attempts - 1) * Max(0, interval) + Max(0, interval);
    }
  }

  datatype FetchResult = FetchResult(tx: Tx, sends: bool)

  /** Either give up on the pending message, or wait for the next attempt, or count one more attempt. */
  function FetchStart(t: Tx, i: FetchInput): FetchResult {
    if i.startTimeLost || t.start.attemptNr >= i.maxAttempts then
      FetchResult(t.(silent := true, active := false), false)
    else if t.start.attemptTime + RetryDelay(t.start.attemptNr, i.retryInterval) > i.now then FetchResult(t, false)
    else FetchResult(t.(start := t.start.(attemptNr := t.start.attemptNr + 1, attemptTime := i.now)), true)
  }

  function FetchStop(t: Tx, i: FetchInput): FetchResult {
    if t.stop.attemptNr >= i.maxAttempts then FetchResult(t.(silent := true), false)
    else if t.stop.attemptTime + RetryDelay(t.stop.attemptNr, i.retryInterval) > i.now then FetchResult(t, false)
    else FetchResult(t.(stop := t.stop.(attemptNr := t.stop.attemptNr + 1, attemptTime := i.now)), true)
  }

  /** fetchFrontRequest. */
  function Fetch(j: Journal, i: FetchInput): (r: (Journal, Option<Message>))
    requires j.Valid()
    ensures r.0.Valid()
  {
    if j.transactionFront.None? || j.objs[j.transactionFront.value].silent then (j, None)
    else
      var id := j.transactionFront.value;
      var t := j.objs[id];
      if t.start.requested && !t.start.confirmed then
        var f := FetchStart(t, i);
        (j.Update(id, f.tx), if f.sends then Some(StartTx(id)) else None)
      else if t.stop.requested && !t.stop.confirmed then
        var f := FetchStop(t, i);
        (j.Update(id, f.tx), if f.sends then Some(StopTx(id)) else None)
      else (j, None)
  }

  // ----- listeners and responses -----

  /**
   The answer to an Authorize request, or its timeout with what was captured when it was sent. accepted: the
   status is Accepted. reserved: the connector is reserved for another tag. blocked: the local list entry is not
   valid, or the connector is reserved. local: the tag is in the local list and LocalAuthorizeOffline is set.
   unknown: AllowOfflineTxForUnknownId is set.
   */
  datatype AuthAnswer =
    | AuthConf(accepted: bool, reserved: bool)
    | AuthTimeout(blocked: bool, local: bool, unknown: bool)

  function AuthResult(t: Tx, answer: AuthAnswer): Tx {
    match answer
    case AuthConf(accepted, reserved) =>
      if !accepted then t.(deauthorized := true)
      else if reserved then t.(active := false)
      else t.(authorized := true)
    case AuthTimeout(blocked, local, unknown) =>
      if blocked then t.(active := false)
      else if local then t.(authorized := true)
      else if unknown then t.(authorized := true)
      else t.(active := false)
  }

  function StartConfirmation(t: Tx, accepted: bool): Tx {
    t.(start := t.start.(confirmed := true), deauthorized := t.deauthorized || !accepted)
  }

  function StopConfirmation(t: Tx): Tx {
    t.(stop := t.stop.(confirmed := true))
  }

  function StartAbort(t: Tx, maxAttempts: int): Tx {
    if t.start.attemptNr >= maxAttempts then t.(silent := true, active := false) else t
  }

  function StopAbort(t: Tx, maxAttempts: int): Tx {
    if t.stop.attemptNr >= maxAttempts then t.(silent := true, active := false) else t
  }
}
