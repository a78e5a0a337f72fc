/**
 What every step of the connector keeps, and what an allocation keeps only on a queue that was polled.
 */
module JournalInvariant {
  import opened Wrappers
  import opened Cyclic
  import opened Journal

  // ----- the life cycle of one transaction -----

  ghost predicate LifeCycle(t: Tx) {
    && (t.stop.requested ==> t.start.requested && !t.active)
    && (t.start.confirmed ==> t.start.requested)
    && (t.stop.confirmed ==> t.stop.requested)
  }

  /**
   How a transaction may change. Nothing is ever taken back, and only an active transaction that is not
   deauthorized starts.
   */
  ghost predicate Progress(t: Tx, u: Tx) {
    && u.nr == t.nr
    && (u.active ==> t.active)
    && (t.authorized ==> u.authorized) && (t.deauthorized ==> u.deauthorized) && (t.silent ==> u.silent)
    && (t.start.requested ==> u.start.requested && u.start.opNr == t.start.opNr)
    && (t.stop.requested ==> u.stop.requested && u.stop.opNr == t.stop.opNr)
    && (t.start.confirmed ==> u.start.confirmed) && (t.stop.confirmed ==> u.stop.confirmed)
    && (u.start.requested && !t.start.requested ==> t.active && !t.deauthorized && u.authorized)
    && (u.stop.requested && !t.stop.requested ==> u.start.requested && !u.active)
  }

  lemma ProgressIsTransitive(t: Tx, u: Tx, v: Tx)
    requires Progress(t, u) && Progress(u, v)
    ensures Progress(t, v)
  {
  }

  /** Transactions that are not current are finished or aborted. */
  ghost predicate Settled(t: Tx) { t.stop.requested || t.IsAborted() }

  // ----- the invariant -----

  ghost predicate Ordered(j: Journal)
    requires j.Valid()
  {
    Dist(j.begin, j.front, j.m) <= Dist(j.begin, j.end, j.m)
  }

  /** The record at nr is stored inside the window, under its own number. */
  ghost predicate GoodRecord(j: Journal, nr: nat)
    requires j.Valid() && nr in j.store
  {
    nr < j.m && InWindow(j.begin, j.end, nr, j.m) && j.objs[j.store[nr]].nr == nr
  }

  ghost predicate GoodStore(j: Journal)
    requires j.Valid()
  {
    forall nr :: nr in j.store ==> GoodRecord(j, nr)
  }

  /** The current transaction is the newest one. */
  ghost predicate CurrentIsNewest(j: Journal)
    requires j.Valid()
  {
    j.transaction.Some? ==>
      Prev(j.end, j.m) in j.store && j.store[Prev(j.end, j.m)] == j.transaction.value
  }

  ghost predicate OthersSettled(j: Journal)
    requires j.Valid()
  {
    forall nr :: nr in j.store && j.transaction != Some(j.store[nr]) ==> Settled(j.objs[j.store[nr]])
  }

  /** nr lies in the history part of the window. */
  predicate InHistory(j: Journal, nr: nat)
    requires j.Valid() && nr < j.m
  {
    Dist(j.begin, nr, j.m) < Dist(j.begin, j.front, j.m)
  }

  ghost predicate HistoryDone(j: Journal)
    requires j.Valid()
  {
    forall nr :: nr in j.store && nr < j.m && InHistory(j, nr) ==> j.objs[j.store[nr]].IsDone()
  }

  /** The front pointer, while anything is queued, is the record at the front number. */
  ghost predicate FrontPointer(j: Journal)
    requires j.Valid()
  {
    j.transactionFront.Some? && j.front != j.end ==>
      j.front in j.store && j.store[j.front] == j.transactionFront.value
  }

  /** An object that is not in the store (any more) has nothing left to send. */
  ghost predicate GoodObject(j: Journal, id: nat)
    requires j.Valid() && id < |j.objs|
  {
    var t := j.objs[id];
    LifeCycle(t) && (t.IsDone() || (t.nr in j.store && j.store[t.nr] == id))
  }

  ghost predicate GoodObjects(j: Journal)
    requires j.Valid()
  {
    forall id :: 0 <= id < |j.objs| ==> GoodObject(j, id)
  }

  /** A front pointer to a transaction with something left to send is at the record at the front number. */
  ghost predicate PointerIsFront(j: Journal)
    requires j.Valid()
  {
    j.transactionFront.Some? && !j.objs[j.transactionFront.value].IsDone() ==>
      j.front != j.end && j.front in j.store && j.store[j.front] == j.transactionFront.value
  }

  /** What every step keeps, even the begin of a transaction on a queue that was not polled. */
  ghost predicate Sound(j: Journal) {
    && j.Valid()
    && Ordered(j) && GoodStore(j) && CurrentIsNewest(j) && OthersSettled(j) && GoodObjects(j) && PointerIsFront(j)
  }

  /** And the front of the queue has not passed anything that is left to send. */
  ghost predicate Inv(j: Journal) { Sound(j) && HistoryDone(j) && FrontPointer(j) }

  /**
   The state that getFrontRequestOpNr leaves behind: there is no front pointer, or it is at a
   transaction that is queued and not done.
   */
  predicate Polled(j: Journal)
    requires j.Valid()
  {
    j.transactionFront.Some? ==> j.front != j.end && !j.objs[j.transactionFront.value].IsDone()
  }

  /** Transaction id is in the queue under its own number. */
  ghost predicate Queued(j: Journal, id: nat)
    requires j.Valid() && id < |j.objs|
  {
    var nr := j.objs[id].nr;
    nr < j.m && nr in j.store && j.store[nr] == id && InWindow(j.front, j.end, nr, j.m)
  }

  ghost predicate AllQueued(j: Journal)
    requires j.Valid()
  {
    forall id :: 0 <= id < |j.objs| && !j.objs[id].IsDone() ==> Queued(j, id)
  }

  lemma InvMeansAllQueued(j: Journal)
    requires Inv(j)
    ensures AllQueued(j)
  {
    forall id | 0 <= id < |j.objs| && !j.objs[id].IsDone() ensures Queued(j, id) {
      assert GoodObject(j, id);
      assert GoodRecord(j, j.objs[id].nr);
      assert !InHistory(j, j.objs[id].nr);
    }
  }

  // ----- updates of one transaction -----

  lemma UpdateKeepsInv(j: Journal, id: nat, t: Tx)
    requires Sound(j) && id < |j.objs| && Progress(j.objs[id], t) && LifeCycle(t)
    ensures Sound(j.Update(id, t))
    ensures Inv(j) ==> Inv(j.Update(id, t))
  {
    var r := j.Update(id, t);
    assert forall nr :: nr in j.store ==> GoodRecord(j, nr);
    assert GoodStore(r) by {
      forall nr | nr in r.store ensures GoodRecord(r, nr) {
        assert GoodRecord(j, nr);
      }
    }
    assert GoodObjects(r) by {
      forall k | 0 <= k < |r.objs| ensures GoodObject(r, k) {
        assert GoodObject(j, k);
      }
    }
  }

  lemma EndKeepsInv(j: Journal)
    requires Sound(j)
    ensures Sound(End(j))
    ensures Inv(j) ==> Inv(End(j))
  {
    if j.transaction.Some? {
      var id := j.transaction.value;
      assert GoodObject(j, id);
      if j.objs[id].active {
        UpdateKeepsInv(j, id, j.objs[id].(active := false));
      }
    }
  }

  lemma FetchKeepsInv(j: Journal, i: FetchInput)
    requires Sound(j)
    ensures Sound(Fetch(j, i).0)
    ensures Inv(j) ==> Inv(Fetch(j, i).0)
  {
    if j.transactionFront.Some? && !j.objs[j.transactionFront.value].silent {
      var id := j.transactionFront.value;
      assert GoodObject(j, id);
      var t := j.objs[id];
      if t.start.requested && !t.start.confirmed {
        UpdateKeepsInv(j, id, FetchStart(t, i).tx);
      } else if t.stop.requested && !t.stop.confirmed {
        UpdateKeepsInv(j, id, FetchStop(t, i).tx);
      }
    }
  }

  /** Responses and listeners. A confirmation comes only for a message that was requested. */
  datatype Reply =
    | AuthReply(answer: AuthAnswer)
    | StartReply(accepted: bool)
    | StopReply
    | StartAborted(maxAttempts: int)
    | StopAborted(maxAttempts: int)

  predicate ReplyExpected(t: Tx, a: Reply) {
    match a
    case AuthReply(_) => true
    case StartReply(_) => t.start.requested
    case StopReply => t.stop.requested
    case StartAborted(_) => true
    case StopAborted(_) => true
  }

  function ApplyReply(t: Tx, a: Reply): Tx {
    match a
    case AuthReply(answer) => AuthResult(t, answer)
    case StartReply(accepted) => StartConfirmation(t, accepted)
    case StopReply => StopConfirmation(t)
    case StartAborted(maxAttempts) => StartAbort(t, maxAttempts)
    case StopAborted(maxAttempts) => StopAbort(t, maxAttempts)
  }

  lemma ReplyKeepsInv(j: Journal, id: nat, a: Reply)
    requires Sound(j) && id < |j.objs| && ReplyExpected(j.objs[id], a)
    ensures Sound(j.Update(id, ApplyReply(j.objs[id], a)))
    ensures Inv(j) ==> Inv(j.Update(id, ApplyReply(j.objs[id], a)))
  {
    assert GoodObject(j, id);
    ReplyIsProgress(j.objs[id], a);
    UpdateKeepsInv(j, id, ApplyReply(j.objs[id], a));
  }

  lemma ReplyIsProgress(t: Tx, a: Reply)
    ensures Progress(t, ApplyReply(t, a))
    ensures LifeCycle(t) && ReplyExpected(t, a) ==> LifeCycle(ApplyReply(t, a))
  {
    match a
    case AuthReply(answer) => AuthIsProgress(t, answer);
    case StartReply(accepted) =>
    case StopReply =>
    case StartAborted(maxAttempts) =>
    case StopAborted(maxAttempts) =>
  }

  lemma AuthIsProgress(t: Tx, answer: AuthAnswer)
    ensures Progress(t, AuthResult(t, answer))
    ensures LifeCycle(t) ==> LifeCycle(AuthResult(t, answer))
  {
  }

  // ----- the loop -----

  lemma CurrentNumber(j: Journal)
    requires Sound(j) && j.transaction.Some?
    ensures j.objs[j.transaction.value].nr == Prev(j.end, j.m) && j.begin != j.end
  {
    assert GoodRecord(j, Prev(j.end, j.m));
  }

  /** Removing the newest record and moving the end (and an equal front) back to it. */
  function DropNewest(j: Journal): (r: Journal)
    requires j.Valid()
    ensures r.Valid()
  {
    var nr := Prev(j.end, j.m);
    j.Remove(nr).(front := if j.front == j.end then nr else j.front, end := nr)
  }

  lemma DropNewestKeepsOrder(j: Journal)
    requires j.Valid() && Ordered(j) && j.begin != j.end
    ensures Ordered(DropNewest(j))
    ensures Dist(j.begin, DropNewest(j).end, j.m) == Dist(j.begin, j.end, j.m) - 1
    ensures forall nr: nat :: nr < j.m && nr != Prev(j.end, j.m) && InWindow(j.begin, j.end, nr, j.m) ==>
              InWindow(j.begin, Prev(j.end, j.m), nr, j.m)
  {
  }

  lemma DropNewestKeepsInv(j: Journal)
    requires Sound(j) && j.begin != j.end
    requires Prev(j.end, j.m) in j.store ==> j.objs[j.store[Prev(j.end, j.m)]].IsDone()
    ensures Sound(DropNewest(j).(transaction := None))
    ensures Inv(j) ==> Inv(DropNewest(j).(transaction := None))
  {
    var nr := Prev(j.end, j.m);
    var r := DropNewest(j).(transaction := None);
    DropNewestKeepsOrder(j);
    assert GoodStore(r) by {
      forall n | n in r.store ensures GoodRecord(r, n) {
        assert GoodRecord(j, n);
      }
    }
    assert OthersSettled(r) by {
      assert j.transaction.Some? ==> j.store[nr] == j.transaction.value;
      forall n | n in r.store ensures Settled(r.objs[r.store[n]]) {
        assert GoodRecord(j, n);
      }
    }
    assert GoodObjects(r) by {
      forall id | 0 <= id < |r.objs| ensures GoodObject(r, id) {
        assert GoodObject(j, id);
      }
    }
    assert HistoryDone(j) ==> HistoryDone(r);
  }

  lemma DropNewestKeepsPolled(j: Journal)
    requires Sound(j) && j.begin != j.end
    requires Prev(j.end, j.m) in j.store ==> j.objs[j.store[Prev(j.end, j.m)]].IsDone()
    ensures DropNewest(j).WindowSize() == j.WindowSize() - 1
    ensures Inv(j) && Polled(j) ==> Polled(DropNewest(j))
  {
    DropNewestKeepsOrder(j);
  }

  lemma ForgetCurrentKeepsInv(j: Journal)
    requires Sound(j) && (j.transaction.Some? ==> Settled(j.objs[j.transaction.value]))
    ensures Sound(j.(transaction := None))
    ensures Inv(j) ==> Inv(j.(transaction := None))
  {
    var r := j.(transaction := None);
    forall nr | nr in r.store ensures GoodRecord(r, nr) {
      assert GoodRecord(j, nr);
    }
    forall id | 0 <= id < |r.objs| ensures GoodObject(r, id) {
      assert GoodObject(j, id);
    }
  }

  lemma CollectRolledBackKeepsInv(j: Journal, removed: bool)
    requires Sound(j)
    ensures j.transaction.Some? ==> j.objs[j.transaction.value].nr < j.m
    ensures Sound(CollectRolledBack(j, removed))
    ensures Inv(j) ==> Inv(CollectRolledBack(j, removed))
  {
    if j.transaction.Some? {
      CurrentNumber(j);
      var t := j.objs[j.transaction.value];
      if (t.IsAborted() && j.cleanAborted) || (t.silent && t.stop.requested) {
        DropNewestKeepsInv(j);
        ForgetCurrentKeepsInv(j);
      }
    }
  }

  lemma CollectEndedKeepsInv(j: Journal)
    requires Sound(j)
    ensures Sound(CollectEnded(j))
    ensures Inv(j) ==> Inv(CollectEnded(j))
  {
    if CollectEnded(j) != j {
      ForgetCurrentKeepsInv(j);
    }
  }

  lemma CollectKeepsInv(j: Journal, removed: bool)
    requires Sound(j)
    ensures j.transaction.Some? ==> j.objs[j.transaction.value].nr < j.m
    ensures Inv(j) ==> Inv(Collect(j, removed))
    ensures var r := Collect(j, removed);
            Sound(r) && r.objs == j.objs && r.m == j.m && r.size == j.size &&
            (r.transaction.Some? ==> r == j && !j.objs[j.transaction.value].stop.requested)
  {
    CollectRolledBackKeepsInv(j, removed);
    CollectEndedKeepsInv(CollectRolledBack(j, removed));
  }

  /** loop() starts a transaction only if it is active, authorized and not deauthorized. */
  lemma DecideIsProgress(t: Tx, i: LoopInput, opNr: nat)
    requires LifeCycle(t) && !t.stop.requested
    ensures var (u, action) := Decide(t, i, opNr);
            && Progress(t, u) && LifeCycle(u)
            && (action.Start? <==> !t.start.requested && u.start.requested)
            && (action.Stop? <==> u.stop.requested)
            && (action.Start? ==> t.active && t.authorized && !t.deauthorized && u.start.opNr == opNr)
            && (action.Stop? ==> t.start.requested && u.stop.opNr == opNr)
  {
  }

  lemma LoopKeepsInv(j: Journal, i: LoopInput, nextOp: nat)
    requires Sound(j)
    ensures j.transaction.Some? ==> j.objs[j.transaction.value].nr < j.m
    ensures Sound(Loop(j, i, nextOp).0)
    ensures Inv(j) ==> Inv(Loop(j, i, nextOp).0)
  {
    CollectKeepsInv(j, i.removed);
    var j1 := Collect(j, i.removed);
    if j1.transaction.Some? {
      var id := j1.transaction.value;
      assert GoodObject(j1, id);
      DecideIsProgress(j1.objs[id], i, nextOp);
      UpdateKeepsInv(j1, id, Decide(j1.objs[id], i, nextOp).0);
    }
  }

  // ----- polling -----

  /** Moving the front. It is right to move it over a number without a record, or with one that is done. */
  lemma SkipKeepsInv(j: Journal)
    requires Sound(j) && j.front != j.end
    ensures Sound(j.(transactionFront := None, front := Next(j.front, j.m)))
    ensures Inv(j) && (j.front in j.store ==> j.objs[j.store[j.front]].IsDone()) ==>
              Inv(j.(transactionFront := None, front := Next(j.front, j.m)))
    ensures Dist(Next(j.front, j.m), j.end, j.m) == Dist(j.front, j.end, j.m) - 1
  {
    var r := j.(transactionFront := None, front := Next(j.front, j.m));
    if HistoryDone(j) && (j.front in j.store ==> j.objs[j.store[j.front]].IsDone()) {
      forall nr | nr in r.store && nr < r.m && InHistory(r, nr) ensures r.objs[r.store[nr]].IsDone() {
        assert nr == j.front || InHistory(j, nr);
      }
    }
    assert GoodStore(r) by {
      forall nr | nr in r.store ensures GoodRecord(r, nr) {
        assert GoodRecord(j, nr);
      }
    }
    assert GoodObjects(r) by {
      forall id | 0 <= id < |r.objs| ensures GoodObject(r, id) {
        assert GoodObject(j, id);
      }
    }
  }

  lemma {:induction false} AdvanceFrontKeepsInv(j: Journal, k: nat)
    requires Sound(j) && k == Dist(j.front, j.end, j.m) && (k == 0 ==> j.transactionFront.None?)
    ensures Sound(AdvanceFront(j, k)) && Polled(AdvanceFront(j, k))
    ensures Inv(j) ==> Inv(AdvanceFront(j, k))
    decreases k
  {
    hide Ordered, GoodStore, CurrentIsNewest, OthersSettled, GoodObjects, PointerIsFront, FrontPointer, HistoryDone;
    if k > 0 {
      var j1 := if j.transactionFront.None? then j.(transactionFront := j.Lookup(j.front)) else j;
      LoadKeepsInv(j);
      if j1.transactionFront.Some? && j1.objs[j1.transactionFront.value].IsDone() {
        SkipKeepsInv(j1);
        DonePointerMeansDoneFront(j1);
        AdvanceFrontKeepsInv(j1.(transactionFront := None, front := Next(j1.front, j1.m)), k - 1);
      }
    }
  }

  lemma DonePointerMeansDoneFront(j: Journal)
    requires j.Valid() && j.front != j.end && j.transactionFront.Some? && j.objs[j.transactionFront.value].IsDone()
    ensures FrontPointer(j) ==> j.front in j.store && j.objs[j.store[j.front]].IsDone()
  {
  }

  lemma LoadKeepsInv(j: Journal)
    requires Sound(j)
    ensures Sound(j.(transactionFront := j.Lookup(j.front))) && Sound(j.(transactionFront := None))
    ensures Inv(j) ==> Inv(j.(transactionFront := j.Lookup(j.front))) && Inv(j.(transactionFront := None))
  {
    var r := j.(transactionFront := j.Lookup(j.front));
    var q := j.(transactionFront := None);
    forall nr | nr in r.store ensures GoodRecord(r, nr) && GoodRecord(q, nr) {
      assert GoodRecord(j, nr);
    }
    forall id | 0 <= id < |r.objs| ensures GoodObject(r, id) && GoodObject(q, id) {
      assert GoodObject(j, id);
    }
  }

  lemma PollKeepsInv(j: Journal)
    requires Sound(j)
    ensures Sound(Poll(j)) && Polled(Poll(j))
    ensures Inv(j) ==> Inv(Poll(j))
  {
    var k := Dist(j.front, j.end, j.m);
    LoadKeepsInv(j);
    AdvanceFrontKeepsInv(if k == 0 then j.(transactionFront := None) else j, k);
  }

  // ----- allocation -----

  /** Removing the oldest record and moving the begin (and an equal front) past it. */
  function DropOldest(j: Journal): (r: Journal)
    requires j.Valid()
    ensures r.Valid()
  {
    var next := Next(j.begin, j.m);
    j.Remove(j.begin).(begin := next, front := if j.front == j.begin then next else j.front)
  }

  // ----- one round of the loops of allocateTransaction -----

  /** One round of the first loop. */
  lemma TrimBackOnce(j: Journal, k: nat, i: nat, env: AllocEnv)
    requires j.Valid()
    ensures TrimBack(j, k, i, env)
            == var tx := j.Lookup(Prev(j.end, j.m));
               var removable := tx.None? || TrimsBack(j.objs[tx.value], j.cleanAborted);
               if k == 0 || !removable || !env.trimOk(i) then j
               else TrimBack(DropNewest(j), k - 1, i + 1, env)
  {
    hide Prev, TrimsBack;
  }

  /** The oldest record, or number without a record, is removed. */
  predicate OldestGoes(j: Journal, i: nat, env: AllocEnv)
    requires j.Valid()
  {
    var tx := j.Lookup(j.begin);
    (tx.None? || TrimsHistory(j.objs[tx.value])) && env.historyRemoveOk(i)
  }

  /** One round of the second loop. */
  lemma TrimHistoryOnce(j: Journal, k: nat, i: nat, env: AllocEnv)
    requires j.Valid()
    ensures TrimHistory(j, k, i, env)
            == if k == 0 || !OldestGoes(j, i, env) then (j, false)
               else if env.historyCreateOk(i) then (DropOldest(j), true)
               else TrimHistory(DropOldest(j), k - 1, i + 1, env)
  {
    hide Next, TrimsHistory;
  }

  lemma DropOldestKeepsInv(j: Journal)
    requires Sound(j) && j.begin != j.end && j.transaction.None?
    requires j.begin in j.store ==> j.objs[j.store[j.begin]].IsDone()
    ensures Sound(DropOldest(j)) && DropOldest(j).transaction.None?
    ensures Inv(j) && Polled(j) ==> Inv(DropOldest(j)) && Polled(DropOldest(j))
    ensures Dist(DropOldest(j).begin, j.end, j.m) == Dist(j.begin, j.end, j.m) - 1
  {
    var r := DropOldest(j);
    assert GoodStore(r) by {
      forall nr | nr in r.store ensures GoodRecord(r, nr) {
        assert GoodRecord(j, nr);
      }
    }
    assert GoodObjects(r) by {
      forall id | 0 <= id < |r.objs| ensures GoodObject(r, id) {
        assert GoodObject(j, id);
      }
    }
    if HistoryDone(j) {
      forall nr | nr in r.store && nr < r.m && InHistory(r, nr) ensures r.objs[r.store[nr]].IsDone() {
        assert InHistory(j, nr);
      }
    }
  }

  lemma TrimmedIsDone(t: Tx, cleanAborted: bool)
    ensures TrimsBack(t, cleanAborted) || TrimsHistory(t) ==> t.IsDone()
  {
  }

  lemma {:induction false} TrimBackKeepsInv(j: Journal, k: nat, i: nat, env: AllocEnv)
    requires Sound(j) && j.transaction.None? && k <= j.WindowSize()
    ensures var r := TrimBack(j, k, i, env);
            && Sound(r) && r.transaction.None? && r.WindowSize() <= j.WindowSize()
            && (Inv(j) && Polled(j) ==> Inv(r) && Polled(r))
    decreases k
  {
    hide TrimBack, TrimsBack, GoodStore, CurrentIsNewest, OthersSettled, GoodObjects, PointerIsFront, FrontPointer,
         HistoryDone, Polled;
    TrimBackOnce(j, k, i, env);
    var tx := j.Lookup(Prev(j.end, j.m));
    if k > 0 && (tx.None? || TrimsBack(j.objs[tx.value], j.cleanAborted)) && env.trimOk(i) {
      if tx.Some? {
        TrimmedIsDone(j.objs[tx.value], j.cleanAborted);
      }
      DropNewestKeepsInv(j);
      DropNewestKeepsPolled(j);
      assert DropNewest(j).(transaction := None) == DropNewest(j);
      TrimBackKeepsInv(DropNewest(j), k - 1, i + 1, env);
    }
  }

  lemma {:induction false} TrimHistoryKeepsInv(j: Journal, k: nat, i: nat, env: AllocEnv)
    requires Sound(j) && j.transaction.None? && k <= j.WindowSize()
    ensures var (r, ok) := TrimHistory(j, k, i, env);
            && Sound(r) && r.transaction.None?
            && (Inv(j) && Polled(j) ==> Inv(r) && Polled(r))
            && r.WindowSize() + (if ok then 1 else 0) <= j.WindowSize()
    decreases k
  {
    hide TrimHistory, TrimsHistory, GoodStore, CurrentIsNewest, OthersSettled, GoodObjects, PointerIsFront,
         FrontPointer, HistoryDone, Polled;
    TrimHistoryOnce(j, k, i, env);
    if k > 0 && OldestGoes(j, i, env) {
      if j.begin in j.store {
        TrimmedIsDone(j.objs[j.store[j.begin]], true);
      }
      DropOldestKeepsInv(j);
      if !env.historyCreateOk(i) {
        TrimHistoryKeepsInv(DropOldest(j), k - 1, i + 1, env);
      }
    }
  }

  lemma MakeRoomKeepsInv(j: Journal, env: AllocEnv)
    requires Sound(j) && j.transaction.None?
    ensures var r := MakeRoom(j, env).0;
            && Sound(r) && r.transaction.None? && r.WindowSize() <= j.WindowSize()
            && (Inv(j) && Polled(j) ==> Inv(r) && Polled(r))
    ensures var r := MakeRoom(j, env).0; r.m == j.m && r.size == j.size && r.objs == j.objs
  {
    var j1 := TrimBack(j, j.WindowSize(), 0, env);
    TrimBackKeepsParameters(j, j.WindowSize(), 0, env);
    TrimHistoryKeepsParameters(j1, j1.WindowSize(), 0, env);
    TrimBackKeepsInv(j, j.WindowSize(), 0, env);
    TrimHistoryKeepsInv(j1, j1.WindowSize(), 0, env);
  }

  lemma AppendGeometry(j: Journal)
    requires Sound(j) && j.WindowSize() + 1 < j.m
    ensures j.end !in j.store && Prev(Next(j.end, j.m), j.m) == j.end
    ensures Dist(j.begin, Next(j.end, j.m), j.m) == j.WindowSize() + 1
    ensures InWindow(j.begin, Next(j.end, j.m), j.end, j.m) && !InHistory(j, j.end)
  {
    assert j.end in j.store ==> GoodRecord(j, j.end);
  }

  lemma AppendKeepsPointer(j: Journal, silent: bool)
    requires Sound(j) && j.transaction.None? && j.WindowSize() + 1 < j.m
    ensures var r := Append(j, silent).(transaction := Some(|j.objs|));
            PointerIsFront(r) && (FrontPointer(j) && Polled(j) ==> FrontPointer(r))
  {
    AppendGeometry(j);
  }

  lemma AppendKeepsInv(j: Journal, silent: bool)
    requires Sound(j) && j.transaction.None? && j.WindowSize() + 1 < j.m
    ensures Sound(Append(j, silent).(transaction := Some(|j.objs|)))
    ensures Inv(j) && Polled(j) ==> Inv(Append(j, silent).(transaction := Some(|j.objs|)))
    ensures Append(j, silent).WindowSize() == j.WindowSize() + 1
  {
    var r := Append(j, silent).(transaction := Some(|j.objs|));
    AppendKeepsPointer(j, silent);
    hide PointerIsFront, FrontPointer, Polled;
    AppendGeometry(j);
    assert GoodStore(r) by {
      forall nr | nr in r.store ensures GoodRecord(r, nr) {
        assert nr == j.end || GoodRecord(j, nr);
      }
    }
    assert GoodObjects(r) by {
      forall id | 0 <= id < |r.objs| ensures GoodObject(r, id) {
        assert id == |j.objs| || GoodObject(j, id);
      }
    }
    if HistoryDone(j) {
      forall nr | nr in r.store && nr < r.m && InHistory(r, nr) ensures r.objs[r.store[nr]].IsDone() {
        assert nr != j.end && InHistory(j, nr);
      }
    }
  }

  /**
   Whatever the file system does, beginning a transaction keeps the journal sound, and on a polled queue the
   whole invariant.
   */
  lemma BeginKeepsInv(j: Journal, authorized: bool, env: AllocEnv)
    requires Sound(j) && (j.transaction.None? ==> MakeRoom(j, env).0.WindowSize() + 1 < j.m)
    ensures Sound(Begin(j, authorized, env))
    ensures Inv(j) && (j.transaction.None? ==> Polled(j)) ==> Inv(Begin(j, authorized, env))
  {
    if j.transaction.None? {
      MakeRoomKeepsInv(j, env);
      var (j1, room) := MakeRoom(j, env);
      if !room.NoRoom? {
        var id := |j1.objs|;
        AppendKeepsInv(j1, room.Silent?);
        var j2 := Append(j1, room.Silent?).(transaction := Some(id));
        UpdateKeepsInv(j2, id, j2.objs[id].(authorized := authorized));
        assert Begin(j, authorized, env) == j2.Update(id, j2.objs[id].(authorized := authorized));
      }
    }
  }

  // ----- the size of the window -----

  /** The extra slot belongs to a newest transaction that is silent (or unreadable). */
  ghost predicate WindowBounded(j: Journal)
    requires j.Valid()
  {
    j.WindowSize() <= j.size ||
    (j.WindowSize() == j.size + 1 &&
     (Prev(j.end, j.m) in j.store ==> j.objs[j.store[Prev(j.end, j.m)]].silent))
  }

  ghost predicate RemovalsSucceed(env: AllocEnv) {
    forall i: nat :: env.trimOk(i)
  }

  lemma TrimBackDropsNewest(j: Journal, k: nat, i: nat, env: AllocEnv)
    requires Sound(j) && j.transaction.None? && 0 < k <= j.WindowSize() && env.trimOk(i)
    requires Prev(j.end, j.m) in j.store ==> TrimsBack(j.objs[j.store[Prev(j.end, j.m)]], j.cleanAborted)
    ensures TrimBack(j, k, i, env).Valid() && TrimBack(j, k, i, env).WindowSize() < j.WindowSize()
  {
    DropNewestKeepsInv(j);
    DropNewestKeepsPolled(j);
    assert DropNewest(j).(transaction := None) == DropNewest(j);
    TrimBackKeepsInv(DropNewest(j), k - 1, i + 1, env);
  }

  lemma TrimBackFreesExtraSlot(j: Journal, env: AllocEnv)
    requires Sound(j) && j.transaction.None? && WindowBounded(j) && RemovalsSucceed(env)
    ensures TrimBack(j, j.WindowSize(), 0, env).WindowSize() <= j.size
  {
    var k := j.WindowSize();
    TrimBackKeepsInv(j, k, 0, env);
    if k == j.size + 1 {
      assert env.trimOk(0);
      TrimBackDropsNewest(j, k, 0, env);
    }
  }

  lemma MakeRoomBoundsWindow(j: Journal, env: AllocEnv)
    requires Sound(j) && j.transaction.None? && WindowBounded(j) && RemovalsSucceed(env)
    ensures var (r, room) := MakeRoom(j, env); (r.WindowSize() + (if room.Regular? then 1 else 0) <= j.size)
  {
    var k := j.WindowSize();
    TrimBackKeepsInv(j, k, 0, env);
    TrimBackFreesExtraSlot(j, env);
    TrimBackKeepsParameters(j, k, 0, env);
    var j1 := TrimBack(j, k, 0, env);
    TrimHistoryKeepsInv(j1, j1.WindowSize(), 0, env);
  }

  lemma {:induction false} TrimBackKeepsParameters(j: Journal, k: nat, i: nat, env: AllocEnv)
    requires j.Valid()
    ensures var r := TrimBack(j, k, i, env); r.m == j.m && r.size == j.size && r.objs == j.objs
    decreases k
  {
    if k > 0 {
      TrimBackKeepsParameters(DropNewest(j), k - 1, i + 1, env);
    }
  }

  lemma {:induction false} TrimHistoryKeepsParameters(j: Journal, k: nat, i: nat, env: AllocEnv)
    requires j.Valid()
    ensures var r := TrimHistory(j, k, i, env).0; r.m == j.m && r.size == j.size && r.objs == j.objs
    decreases k
  {
    if k > 0 {
      TrimHistoryKeepsParameters(DropOldest(j), k - 1, i + 1, env);
    }
  }

  lemma AppendBoundsWindow(j: Journal, silent: bool, authorized: bool)
    requires j.Valid() && Ordered(j) && j.WindowSize() + (if silent then 0 else 1) <= j.size
    ensures var r, id := Append(j, silent), |j.objs|;
            WindowBounded(r.Update(id, r.objs[id].(authorized := authorized)).(transaction := Some(id)))
  {
  }

  /**
   If removals succeed, the window never outgrows the record size by more than the slot of a silent
   newest transaction.
   */
  lemma BeginBoundsWindow(j: Journal, authorized: bool, env: AllocEnv)
    requires Sound(j) && WindowBounded(j) && RemovalsSucceed(env)
    ensures Sound(Begin(j, authorized, env)) && WindowBounded(Begin(j, authorized, env))
  {
    if j.transaction.None? {
      MakeRoomKeepsInv(j, env);
      MakeRoomBoundsWindow(j, env);
      BeginKeepsInv(j, authorized, env);
      var (j1, room) := MakeRoom(j, env);
      if !room.NoRoom? {
        AppendBoundsWindow(j1, room.Silent?, authorized);
      }
    }
  }
}
