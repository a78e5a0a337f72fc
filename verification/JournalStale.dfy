/**
 Why the queue has to be polled before a transaction is begun. getFrontRequestOpNr keeps a pointer to the
 transaction at the front of the queue. If that transaction is removed by a rollback or by trimming, and
 the next transaction is begun before the next poll, the pointer is stale and the poll skips a transaction
 that the server never learns about.

 UnpolledBeginIsSafeIff says for each single call whether it loses a transaction, and PolledIffNothingIsLost
 that a poll before the call is exactly what it takes to lose none, whatever the file system does.
 */
module JournalStale {
  import opened Wrappers
  import opened Cyclic
  import opened Journal
  import opened JournalInvariant
  import opened JournalRuns
  import JournalBoot

  // ----- an allocation does not look at the front pointer -----

  ghost predicate PointerFits(j: Journal, p: Option<nat>)
    requires j.Valid()
  {
    p.Some? ==> p.value < |j.objs|
  }

  lemma DropsIgnorePointer(j: Journal, p: Option<nat>)
    requires j.Valid() && PointerFits(j, p)
    ensures DropNewest(j.(transactionFront := p)) == DropNewest(j).(transactionFront := p)
    ensures DropOldest(j.(transactionFront := p)) == DropOldest(j).(transactionFront := p)
    ensures DropNewest(j).objs == j.objs == DropOldest(j).objs
  {
  }

  lemma {:induction false} TrimBackIgnoresPointer(j: Journal, p: Option<nat>, k: nat, i: nat, env: AllocEnv)
    requires j.Valid() && PointerFits(j, p)
    ensures PointerFits(TrimBack(j, k, i, env), p)
    ensures TrimBack(j.(transactionFront := p), k, i, env) == TrimBack(j, k, i, env).(transactionFront := p)
    decreases k
  {
    hide Next, Prev, TrimsBack;
    if k > 0 {
      DropsIgnorePointer(j, p);
      TrimBackIgnoresPointer(DropNewest(j), p, k - 1, i + 1, env);
    }
  }

  lemma {:induction false} TrimHistoryIgnoresPointer(j: Journal, p: Option<nat>, k: nat, i: nat, env: AllocEnv)
    requires j.Valid() && PointerFits(j, p)
    ensures var r := TrimHistory(j, k, i, env);
            && PointerFits(r.0, p)
            && TrimHistory(j.(transactionFront := p), k, i, env) == (r.0.(transactionFront := p), r.1)
    decreases k
  {
    hide TrimHistory, TrimsHistory;
    TrimHistoryOnce(j, k, i, env);
    TrimHistoryOnce(j.(transactionFront := p), k, i, env);
    if k > 0 {
      DropsIgnorePointer(j, p);
      TrimHistoryIgnoresPointer(DropOldest(j), p, k - 1, i + 1, env);
    }
  }

  lemma MakeRoomIgnoresPointer(j: Journal, p: Option<nat>, env: AllocEnv)
    requires j.Valid() && PointerFits(j, p)
    ensures var r := MakeRoom(j, env);
            PointerFits(r.0, p) && MakeRoom(j.(transactionFront := p), env) == (r.0.(transactionFront := p), r.1)
  {
    hide TrimBack, TrimHistory;
    TrimBackIgnoresPointer(j, p, j.WindowSize(), 0, env);
    var j1 := TrimBack(j, j.WindowSize(), 0, env);
    TrimHistoryIgnoresPointer(j1, p, j1.WindowSize(), 0, env);
  }

  lemma AppendIgnoresPointer(j: Journal, p: Option<nat>, silent: bool, authorized: bool)
    requires j.Valid() && PointerFits(j, p)
    ensures Appended(j.(transactionFront := p), silent, authorized)
            == Appended(j, silent, authorized).(transactionFront := p)
  {
  }

  /** The record that a begin call creates. */
  function Appended(j: Journal, silent: bool, authorized: bool): (r: Journal)
    requires j.Valid()
    ensures r.Valid()
  {
    var a, id := Append(j, silent), |j.objs|;
    a.Update(id, a.objs[id].(authorized := authorized)).(transaction := Some(id))
  }

  lemma BeginInParts(j: Journal, authorized: bool, env: AllocEnv)
    requires j.Valid()
    ensures Begin(j, authorized, env)
            == if j.transaction.Some? then j
               else
                 var r := MakeRoom(j, env);
                 if r.1.NoRoom? then r.0 else Appended(r.0, r.1.Silent?, authorized)
  {
    hide MakeRoom;
  }

  lemma BeginIgnoresPointer(j: Journal, p: Option<nat>, authorized: bool, env: AllocEnv)
    requires j.Valid() && PointerFits(j, p)
    ensures Begin(j.(transactionFront := p), authorized, env) == Begin(j, authorized, env).(transactionFront := p)
  {
    hide Begin, MakeRoom, Appended;
    BeginInParts(j, authorized, env);
    BeginInParts(j.(transactionFront := p), authorized, env);
    MakeRoomIgnoresPointer(j, p, env);
    var r := MakeRoom(j, env);
    AppendIgnoresPointer(r.0, p, r.1.Silent?, authorized);
  }

  // ----- what a poll makes of a stale pointer -----

  /** A poll with a front pointer that is done takes one number out of the queue, whatever is stored there. */
  lemma StalePointerSkipsFront(j: Journal)
    requires j.Valid() && j.front != j.end
    requires j.transactionFront.Some? && j.objs[j.transactionFront.value].IsDone()
    ensures Poll(j).m == j.m && Poll(j).objs == j.objs && !InWindow(Poll(j).front, Poll(j).end, j.front, j.m)
  {
    PollKeepsRecords(j);
    var r := j.(transactionFront := None, front := Next(j.front, j.m));
    var k := Dist(j.front, j.end, j.m);
    assert Poll(j) == AdvanceFront(r, k - 1);
    AdvanceFrontOnlyShrinks(r, k - 1, j.front);
  }

  /** Unless the queue was polled, the front pointer is at a transaction that is done. */
  lemma UnpolledPointerIsDone(j: Journal)
    requires Inv(j) && !Polled(j)
    ensures j.transactionFront.Some? && j.objs[j.transactionFront.value].IsDone()
  {
    assert GoodObject(j, j.transactionFront.value);
    var t := j.objs[j.transactionFront.value];
    assert t.nr in j.store ==> GoodRecord(j, t.nr);
  }

  /** After this begin call, the next poll has every transaction in the queue that is not done. */
  ghost predicate NothingLost(j: Journal, authorized: bool, env: AllocEnv)
    requires j.Valid()
  {
    AllQueued(Poll(Begin(j, authorized, env)))
  }

  /** There is no transaction at the front of the queue that the server still has to learn about. */
  ghost predicate FrontIsNotNeeded(j: Journal)
    requires j.Valid()
  {
    j.front == j.end || (j.front in j.store ==> j.objs[j.store[j.front]].IsDone())
  }

  /** The begin call, as if the pointer had been cleared before. */
  lemma BeginWithoutPointer(j: Journal, authorized: bool, env: AllocEnv)
    requires Inv(j) && j.transaction.None? && MakeRoom(j, env).0.WindowSize() + 1 < j.m
    ensures var b0 := Begin(j.(transactionFront := None), authorized, env);
            && Inv(b0) && b0.transactionFront.None? && |j.objs| <= |b0.objs|
            && (forall id :: 0 <= id < |j.objs| ==> b0.objs[id] == j.objs[id])
            && Begin(j, authorized, env) == b0.(transactionFront := j.transactionFront)
  {
    var j0 := j.(transactionFront := None);
    hide MakeRoom;
    LoadKeepsInv(j);
    MakeRoomIgnoresPointer(j, None, env);
    BeginKeepsInv(j0, authorized, env);
    BeginIgnoresPointer(j, None, authorized, env);
    BeginIgnoresPointer(j0, j.transactionFront, authorized, env);
    assert j0.(transactionFront := j.transactionFront) == j;
    BeginKeepsPointer(j0, authorized, env);
  }

  lemma BeginKeepsPointer(j: Journal, authorized: bool, env: AllocEnv)
    requires j.Valid()
    ensures var r := Begin(j, authorized, env);
            && r.transactionFront == j.transactionFront && |j.objs| <= |r.objs|
            && forall id :: 0 <= id < |j.objs| ==> r.objs[id] == j.objs[id]
  {
    hide TrimBack, TrimHistory;
    TrimBackKeepsPointer(j, j.WindowSize(), 0, env);
    var j1 := TrimBack(j, j.WindowSize(), 0, env);
    TrimHistoryKeepsPointer(j1, j1.WindowSize(), 0, env);
  }

  lemma {:induction false} TrimBackKeepsPointer(j: Journal, k: nat, i: nat, env: AllocEnv)
    requires j.Valid()
    ensures var r := TrimBack(j, k, i, env); r.transactionFront == j.transactionFront && r.objs == j.objs
    decreases k
  {
    hide Next, Prev, TrimsBack;
    if k > 0 {
      TrimBackKeepsPointer(DropNewest(j), k - 1, i + 1, env);
    }
  }

  lemma {:induction false} TrimHistoryKeepsPointer(j: Journal, k: nat, i: nat, env: AllocEnv)
    requires j.Valid()
    ensures var r := TrimHistory(j, k, i, env).0; r.transactionFront == j.transactionFront && r.objs == j.objs
    decreases k
  {
    hide TrimHistory;
    TrimHistoryOnce(j, k, i, env);
    if k > 0 {
      TrimHistoryKeepsPointer(DropOldest(j), k - 1, i + 1, env);
    }
  }

  /** With a stale pointer, the poll keeps everything if and only if the number that it skips is not needed. */
  lemma StalePollKeepsAllIff(b0: Journal, p: nat)
    requires Inv(b0) && b0.transactionFront.None? && p < |b0.objs| && b0.objs[p].IsDone()
    ensures AllQueued(Poll(b0.(transactionFront := Some(p)))) <==> FrontIsNotNeeded(b0)
    ensures FrontIsNotNeeded(b0) ==> Inv(Poll(b0.(transactionFront := Some(p))))
  {
    hide InWindow, AdvanceFront, Settled, LifeCycle;
    var b := b0.(transactionFront := Some(p));
    var k := Dist(b.front, b.end, b.m);
    EmptyQueueHasNoLength(b0);
    if b.front == b.end {
      AdvanceFrontSteps(b0, 0);
      InvMeansAllQueued(b0);
    } else {
      AdvanceFrontSteps(b, k);
      var r := b0.(transactionFront := None, front := Next(b.front, b.m));
      if FrontIsNotNeeded(b0) {
        SkipKeepsInv(b0);
        AdvanceFrontKeepsInv(r, k - 1);
        InvMeansAllQueued(Poll(b));
      } else {
        var id := b0.store[b0.front];
        assert GoodRecord(b0, b0.front);
        StalePointerSkipsFront(b);
        assert !Queued(Poll(b), id);
      }
    }
  }

  lemma EmptyQueueHasNoLength(j: Journal)
    requires j.Valid()
    ensures Dist(j.front, j.end, j.m) == 0 <==> j.front == j.end
  {
  }

  lemma AdvanceFrontSteps(j: Journal, k: nat)
    requires j.Valid()
    ensures k == 0 ==> AdvanceFront(j, k) == j
    ensures k > 0 && j.transactionFront.Some? && j.objs[j.transactionFront.value].IsDone() ==>
              AdvanceFront(j, k) == AdvanceFront(j.(transactionFront := None, front := Next(j.front, j.m)), k - 1)
  {
  }

  /**
   One begin call, whatever the state of the queue and of the file system: the next poll has every transaction in
   the queue that is not done, if and only if the queue was polled before or the front record that the call
   leaves behind is not needed. Then the poll also restores the invariant, so that every run can go on from there.
   */
  lemma UnpolledBeginIsSafeIff(j: Journal, authorized: bool, env: AllocEnv)
    requires Inv(j) && j.transaction.None? && MakeRoom(j, env).0.WindowSize() + 1 < j.m
    ensures NothingLost(j, authorized, env) <==> Polled(j) || FrontIsNotNeeded(Begin(j, authorized, env))
    ensures NothingLost(j, authorized, env) ==> Inv(Poll(Begin(j, authorized, env)))
  {
    hide Begin, AllQueued, FrontIsNotNeeded;
    if Polled(j) {
      PolledBeginIsSafe(j, authorized, env);
    } else {
      UnpolledPointerIsDone(j);
      BeginWithoutPointer(j, authorized, env);
      var b0 := Begin(j.(transactionFront := None), authorized, env);
      StalePollKeepsAllIff(b0, j.transactionFront.value);
      PointerIsNoPartOfFront(b0, j.transactionFront);
    }
  }

  lemma PointerIsNoPartOfFront(b: Journal, p: Option<nat>)
    requires b.Valid() && PointerFits(b, p)
    ensures FrontIsNotNeeded(b.(transactionFront := p)) <==> FrontIsNotNeeded(b)
  {
  }

  lemma PolledBeginIsSafe(j: Journal, authorized: bool, env: AllocEnv)
    requires Inv(j) && Polled(j) && j.transaction.None? && MakeRoom(j, env).0.WindowSize() + 1 < j.m
    ensures NothingLost(j, authorized, env) && Inv(Poll(Begin(j, authorized, env)))
  {
    BeginKeepsInv(j, authorized, env);
    PollKeepsInv(Begin(j, authorized, env));
    InvMeansAllQueued(Poll(Begin(j, authorized, env)));
  }

  // ----- for every unpolled queue there is a begin call that loses a transaction -----

  predicate OldestIsHistory(j: Journal)
    requires j.Valid()
  {
    var tx := j.Lookup(j.begin); tx.None? || TrimsHistory(j.objs[tx.value])
  }

  /** How many records can be trimmed from the beginning, at most k. */
  function Drops(j: Journal, k: nat): nat
    requires j.Valid()
    decreases k
  {
    if k == 0 || !OldestIsHistory(j) then 0 else 1 + Drops(DropOldest(j), k - 1)
  }

  /** Every removal from the beginning succeeds, and the creation after the last one. */
  ghost predicate CreatesAfter(env: AllocEnv, last: nat) {
    && (forall x: nat :: env.historyRemoveOk(x))
    && (forall x: nat :: env.historyCreateOk(x) <==> x == last)
  }

  /** What is done and not current may be trimmed. */
  lemma DoneIsHistory(j: Journal, nr: nat)
    requires Inv(j) && j.transaction.None? && nr in j.store
    ensures j.objs[j.store[nr]].IsDone() <==> TrimsHistory(j.objs[j.store[nr]])
  {
  }

  /** Trimming as far as possible. */
  lemma {:induction false} TrimsAll(j: Journal, k: nat, i: nat, env: AllocEnv)
    requires Inv(j) && j.transactionFront.None? && j.transaction.None? && k == j.WindowSize() && Drops(j, k) > 0
    requires CreatesAfter(env, i + Drops(j, k) - 1)
    ensures var r := TrimHistory(j, k, i, env);
            && r.1 && Inv(r.0) && r.0.transactionFront.None? && r.0.transaction.None? && r.0.m == j.m
            && r.0.WindowSize() < j.WindowSize() && (r.0.begin == r.0.end || !OldestIsHistory(r.0))
    decreases k
  {
    hide TrimHistory, TrimsHistory;
    assert env.historyRemoveOk(i);
    assert env.historyCreateOk(i) <==> Drops(j, k) == 1;
    TrimHistoryOnce(j, k, i, env);
    OldestIsDone(j);
    DropOldestKeepsInv(j);
    EmptyWindow(DropOldest(j));
    if Drops(j, k) > 1 {
      TrimsAll(DropOldest(j), k - 1, i + 1, env);
    }
  }

  lemma EmptyWindow(j: Journal)
    requires j.Valid()
    ensures j.WindowSize() == 0 <==> j.begin == j.end
  {
  }

  lemma OldestIsDone(j: Journal)
    requires Inv(j) && j.transaction.None? && OldestIsHistory(j)
    ensures j.begin in j.store ==> j.objs[j.store[j.begin]].IsDone()
  {
    if j.begin in j.store {
      DoneIsHistory(j, j.begin);
    }
  }

  /** When nothing more can be trimmed, the front is at the beginning, and what is there is needed. */
  lemma TrimmedFront(r: Journal)
    requires Inv(r) && r.transaction.None? && (r.begin == r.end || !OldestIsHistory(r))
    ensures r.front == r.begin
    ensures r.begin != r.end ==> r.front in r.store && !r.objs[r.store[r.front]].IsDone()
  {
    if r.begin != r.end {
      DoneIsHistory(r, r.begin);
      assert !InHistory(r, r.begin);
    }
  }

  /** A window without anything to trim, but not empty, belongs to a polled queue. */
  lemma UnpolledOldestIsHistory(j: Journal)
    requires Inv(j) && !Polled(j) && j.transaction.None? && j.begin != j.end
    ensures OldestIsHistory(j)
  {
    if !OldestIsHistory(j) {
      TrimmedFront(j);
      UnpolledPointerIsDone(j);
    }
  }

  /** No removal at the end, and creation succeeds after everything at the beginning that is done was trimmed. */
  function WorstCase(j: Journal): AllocEnv
    requires j.Valid()
  {
    var n := Drops(j, j.WindowSize());
    AllocEnv(_ => false, j.begin == j.end, _ => true, x => x + 1 == n, false, false)
  }

  lemma RoomInWorstCase(j: Journal)
    requires Inv(j) && !Polled(j) && j.transaction.None?
    ensures var j0 := j.(transactionFront := None); var r := MakeRoom(j0, WorstCase(j));
            && Inv(r.0) && r.0.transaction.None? && r.0.transactionFront.None? && r.1.Regular? && r.0.m == j.m
            && r.0.WindowSize() <= j.WindowSize() && (r.0.begin == r.0.end || !OldestIsHistory(r.0))
  {
    hide TrimHistory, TrimsHistory, TrimsBack, GoodStore, CurrentIsNewest, OthersSettled, GoodObjects, PointerIsFront,
         HistoryDone;
    var j0, env := j.(transactionFront := None), WorstCase(j);
    LoadKeepsInv(j);
    EmptyWindow(j);
    assert TrimBack(j0, j.WindowSize(), 0, env) == j0;
    if j.begin != j.end {
      UnpolledOldestIsHistory(j);
      DropsIgnorePointers(j, None, j.WindowSize());
      TrimsAll(j0, j.WindowSize(), 0, env);
    }
  }

  lemma {:induction false} DropsIgnorePointers(j: Journal, p: Option<nat>, k: nat)
    requires j.Valid() && PointerFits(j, p)
    ensures Drops(j.(transactionFront := p), k) == Drops(j, k)
    decreases k
  {
    hide TrimsHistory, DropOldest, DropNewest;
    if k > 0 {
      DropsIgnorePointer(j, p);
      DropsIgnorePointers(DropOldest(j), p, k - 1);
    }
  }

  /** The record at the front after a regular append to a window from which nothing more can be trimmed. */
  lemma AppendedFrontIsNeeded(r: Journal, authorized: bool)
    requires Inv(r) && r.transaction.None? && r.WindowSize() + 1 < r.m
    requires r.begin == r.end || !OldestIsHistory(r)
    ensures !FrontIsNotNeeded(Appended(r, false, authorized))
  {
    TrimmedFront(r);
    AppendGeometry(r);
  }

  lemma WorstCaseLoses(j: Journal, authorized: bool)
    requires Inv(j) && !Polled(j) && j.transaction.None? && j.WindowSize() + 1 < j.m
    ensures !NothingLost(j, authorized, WorstCase(j))
  {
    hide NothingLost, FrontIsNotNeeded, MakeRoom, OldestIsHistory, WorstCase, Begin, Appended;
    var j0, env := j.(transactionFront := None), WorstCase(j);
    RoomInWorstCase(j);
    MakeRoomIgnoresPointer(j, None, env);
    UnpolledBeginIsSafeIff(j, authorized, env);
    BeginWithoutPointer(j, authorized, env);
    var r := MakeRoom(j0, env).0;
    AppendedFrontIsNeeded(r, authorized);
    BeginInParts(j0, authorized, env);
    var b0 := Begin(j0, authorized, env);
    PointerIsNoPartOfFront(b0, j.transactionFront);
  }

  /**
   The poll before a begin call is exactly what is needed: the queue was polled since its front transaction was
   done if and only if the call loses no transaction, whatever the file system does.
   */
  lemma PolledIffNothingIsLost(j: Journal, authorized: bool)
    requires Inv(j) && j.transaction.None? && j.WindowSize() + 1 < j.m
    ensures Polled(j) <==> forall env :: NothingLost(j, authorized, env)
  {
    if Polled(j) {
      forall env ensures NothingLost(j, authorized, env) {
        MakeRoomKeepsInv(j, env);
        PolledBeginIsSafe(j, authorized, env);
      }
    } else {
      WorstCaseLoses(j, authorized);
    }
  }

  // ----- instances -----

  lemma {:induction false} TrimBackKeepsEmptyQueue(j: Journal, k: nat, i: nat, env: AllocEnv)
    requires j.Valid() && j.front == j.end
    ensures TrimBack(j, k, i, env).front == TrimBack(j, k, i, env).end
    decreases k
  {
    hide Next, Prev, TrimsBack;
    if k > 0 {
      TrimBackKeepsEmptyQueue(DropNewest(j), k - 1, i + 1, env);
    }
  }

  lemma {:induction false} TrimHistoryKeepsEmptyQueue(j: Journal, k: nat, i: nat, env: AllocEnv)
    requires j.Valid() && j.front == j.end && k <= j.WindowSize()
    ensures TrimHistory(j, k, i, env).0.front == TrimHistory(j, k, i, env).0.end
    decreases k
  {
    hide TrimHistory;
    TrimHistoryOnce(j, k, i, env);
    if k > 0 {
      TrimHistoryKeepsEmptyQueue(DropOldest(j), k - 1, i + 1, env);
    }
  }

  /** Room for a regular record in an empty queue. */
  lemma RoomAtEmptyQueue(j: Journal, env: AllocEnv)
    requires Inv(j) && j.transaction.None? && j.front == j.end && MakeRoom(j, env).1.Regular?
    ensures var r := MakeRoom(j, env).0; r.front == r.end && r.WindowSize() + 1 < j.m && r.m == j.m
  {
    var j0 := j.(transactionFront := None);
    LoadKeepsInv(j);
    MakeRoomIgnoresPointer(j, None, env);
    TrimBackKeepsEmptyQueue(j0, j.WindowSize(), 0, env);
    TrimBackKeepsInv(j0, j.WindowSize(), 0, env);
    TrimBackKeepsParameters(j0, j.WindowSize(), 0, env);
    var j1 := TrimBack(j0, j.WindowSize(), 0, env);
    TrimHistoryKeepsEmptyQueue(j1, j1.WindowSize(), 0, env);
    TrimHistoryKeepsInv(j1, j1.WindowSize(), 0, env);
    TrimHistoryKeepsParameters(j1, j1.WindowSize(), 0, env);
  }

  /**
   Beginning a regular transaction while the queue is empty: the next poll keeps the new transaction in the
   queue, and loses none, if and only if the front pointer was cleared before.
   */
  lemma NewTransactionIsQueuedIff(j: Journal, authorized: bool, env: AllocEnv)
    requires Inv(j) && j.transaction.None? && j.front == j.end && MakeRoom(j, env).1.Regular?
    ensures NothingLost(j, authorized, env) <==> j.transactionFront.None?
    ensures var b := Begin(j, authorized, env);
            && b.transaction == Some(|j.objs|) && |b.objs| == |j.objs| + 1
            && b.objs[|j.objs|] == NewTx(b.front, false).(authorized := authorized)
            && Poll(b).m == b.m
            && (InWindow(Poll(b).front, Poll(b).end, b.front, b.m) <==> j.transactionFront.None?)
  {
    hide MakeRoom, Poll;
    RoomAtEmptyQueue(j, env);
    BeginInParts(j, authorized, env);
    MakeRoomKeepsObjects(j, env);
    var b := Begin(j, authorized, env);
    PollKeepsRecords(b);
    assert !FrontIsNotNeeded(b);
    UnpolledBeginIsSafeIff(j, authorized, env);
    if j.transactionFront.None? {
      assert Queued(Poll(b), |j.objs|);
    } else {
      UnpolledPointerIsDone(j);
      BeginKeepsPointer(j, authorized, env);
      StalePointerSkipsFront(b);
    }
  }

  lemma MakeRoomKeepsObjects(j: Journal, env: AllocEnv)
    requires j.Valid()
    ensures MakeRoom(j, env).0.objs == j.objs
  {
    hide TrimBack, TrimHistory;
    TrimBackKeepsPointer(j, j.WindowSize(), 0, env);
    var j1 := TrimBack(j, j.WindowSize(), 0, env);
    TrimHistoryKeepsPointer(j1, j1.WindowSize(), 0, env);
  }

  /**
   If the only queued transaction was given up and the allocation removes it from the end before the next poll,
   the new transaction takes its number, and that poll skips it.
   */
  lemma TrimmedBackLosesNew(j: Journal, authorized: bool, env: AllocEnv)
    requires Inv(j) && j.transaction.None? && j.begin == j.front && j.end == Next(j.front, j.m)
    requires j.transactionFront.Some? && j.objs[j.transactionFront.value].silent
    requires env.trimOk(0) && env.createOk
    ensures !NothingLost(j, authorized, env)
    ensures var b := Begin(j, authorized, env);
            && b.transaction == Some(|j.objs|) && |b.objs| == |j.objs| + 1 && b.objs[|j.objs|].nr == j.front < j.m
            && !b.objs[|j.objs|].IsDone()
            && Poll(b).m == j.m && !InWindow(Poll(b).front, Poll(b).end, j.front, j.m)
  {
    hide Poll;
    BackRoom(j, env);
    BeginInParts(j, authorized, env);
    var b := Begin(j, authorized, env);
    assert !FrontIsNotNeeded(b);
    UnpolledBeginIsSafeIff(j, authorized, env);
    StalePointerSkipsFront(b);
  }

  lemma BackRoom(j: Journal, env: AllocEnv)
    requires Inv(j) && j.begin == j.front && j.end == Next(j.front, j.m)
    requires j.transactionFront.Some? && j.objs[j.transactionFront.value].silent && env.trimOk(0) && env.createOk
    ensures MakeRoom(j, env) == (DropNewest(j), Regular)
    ensures var d := DropNewest(j); d.begin == j.front && d.front == j.front && d.end == j.front && d.WindowSize() == 0
  {
    assert Dist(j.begin, j.end, j.m) == 1 && Prev(j.end, j.m) == j.front && j.front != j.end;
    assert TrimBack(DropNewest(j), 0, 1, env) == DropNewest(j);
    assert TrimBack(j, 1, 0, env) == DropNewest(j);
  }

  /**
   If the transaction at the front has been confirmed and the allocation removes it from a full window
   before the next poll, that poll skips the transaction behind it, for which the server still waits.
   */
  lemma TrimmedFrontLosesNext(j: Journal, authorized: bool, env: AllocEnv, next: nat)
    requires Inv(j) && j.transaction.None? && j.begin == j.front
    requires j.transactionFront.Some? && j.objs[j.transactionFront.value].IsCompleted()
    requires Prev(j.end, j.m) in j.store && !TrimsBack(j.objs[j.store[Prev(j.end, j.m)]], j.cleanAborted)
    requires j.WindowSize() >= j.size && j.WindowSize() >= 2 && env.historyRemoveOk(0) && env.historyCreateOk(0)
    requires Next(j.begin, j.m) in j.store && j.store[Next(j.begin, j.m)] == next && j.objs[next].IsOwed()
    ensures !NothingLost(j, authorized, env)
    ensures var r := Poll(Begin(j, authorized, env));
            && r.Valid() && next < |r.objs| && r.objs[next] == j.objs[next] && r.objs[next].nr < r.m
            && r.objs[next].IsOwed() && !InWindow(r.front, r.end, r.objs[next].nr, r.m)
  {
    assert GoodRecord(j, Next(j.begin, j.m));
    var k := j.WindowSize();
    assert TrimBack(j, k, 0, env) == j;
    assert j.front != j.end && j.store[j.front] == j.transactionFront.value;
    assert TrimHistory(j, k, 0, env) == (DropOldest(j), true);
    var b := Begin(j, authorized, env);
    assert b.front == Next(j.begin, j.m) && b.transactionFront == j.transactionFront;
    assert b.objs[next] == j.objs[next];
    assert j.objs[next].nr == b.front;
    StalePointerSkipsFront(b);
    assert GoodObject(j, next);
    assert !Queued(Poll(b), next);
  }

  /** The loop itself leads there: rolling back a polled, aborted transaction leaves the pointer behind. */
  lemma RollbackLeavesStalePointer(j: Journal, i: LoopInput, nextOp: nat)
    requires Inv(j) && j.transaction.Some? && j.transactionFront == j.transaction && j.front == Prev(j.end, j.m)
    requires j.objs[j.transaction.value].IsAborted() && j.cleanAborted && i.removed
    ensures j.objs[j.transaction.value].nr < j.m
    ensures var r := Loop(j, i, nextOp).0;
            r.transaction.None? && r.front == r.end && r.transactionFront.Some? && !Polled(r)
  {
    CurrentNumber(j);
  }

  /** Nothing is plugged in, and nothing starts or stops. */
  const IDLE := LoopInput(true, false, false, false, false, false, false, false, false, false, false, false)

  /** Files can be created and removed. */
  const WORKING := AllocEnv(_ => true, true, _ => true, _ => true, false, false)

  const ABORTED := JournalBoot.FIRST.(active := false)

  function Stale(m: nat, size: nat): Journal
    requires 1 <= size && 2 * size < m
  {
    JournalBoot.Empty(m, size).(transactionFront := Some(0), objs := [ABORTED])
  }

  /** The state before that rollback is reached from an empty flash: begin, poll, end. */
  lemma StalePointerIsReached(m: nat, size: nat) returns (ws: seq<World>, ss: seq<Step>)
    requires 1 <= size && 2 * size < m
    ensures Run(ws, ss) && ws[0] == World(JournalBoot.Empty(m, size), 1)
    ensures ss == [BeginStep(true, WORKING), PollStep, EndStep, LoopStep(IDLE)]
    ensures var j := ws[3].j;
            && Inv(j) && j.transaction.Some? && j.transactionFront == j.transaction && j.front == Prev(j.end, j.m)
            && j.objs[j.transaction.value].IsAborted() && j.cleanAborted
    ensures var r := ws[4].j;
            Inv(r) && r.transaction.None? && r.front == r.end && r.transactionFront.Some? && !Polled(r)
    ensures |ws| == 5 && ws[4] == World(Stale(m, size), 1)
  {
    var w0 := World(JournalBoot.Empty(m, size), 1);
    var w1 := World(JournalBoot.First(m, size, JournalBoot.FIRST), 1);
    var w2 := w1.(j := w1.j.(transactionFront := Some(0)));
    var w3 := w2.(j := w2.j.(objs := [ABORTED]));
    StaleSteps(m, size, w0, w1, w2, w3);
    hide Sound, Inv, Run, Do, Enabled, Poll, End, Loop, Begin, MakeRoom, NumbersRemain;
    RunStarts(w0);
    ws, ss := [w0], [];
    BeginGoesOn(ws, ss, true, WORKING, w1.j);
    ws, ss := ws + [w1], ss + [BeginStep(true, WORKING)];
    RunGoesOn(ws, ss, PollStep);
    ws, ss := ws + [w2], ss + [PollStep];
    EndGoesOn(ws, ss, w3.j);
    ws, ss := ws + [w3], ss + [EndStep];
    RunGoesOn(ws, ss, LoopStep(IDLE));
    ws, ss := ws + [Do(w3, LoopStep(IDLE))], ss + [LoopStep(IDLE)];
    StaleKeepsInv(m, size);
    RollbackLeavesStalePointer(w3.j, IDLE, 1);
  }

  lemma StaleSteps(m: nat, size: nat, w0: World, w1: World, w2: World, w3: World)
    requires 1 <= size && 2 * size < m
    requires w0 == World(JournalBoot.Empty(m, size), 1)
    requires w1 == World(JournalBoot.First(m, size, JournalBoot.FIRST), 1)
    requires w2 == w1.(j := w1.j.(transactionFront := Some(0)))
    requires w3 == w2.(j := w2.j.(objs := [ABORTED]))
    ensures Inv(w0.j) && Enabled(w0, BeginStep(true, WORKING)) && Do(w0, BeginStep(true, WORKING)) == w1
    ensures Inv(w1.j) && Do(w1, PollStep) == w2
    ensures Inv(w2.j) && Do(w2, EndStep) == w3 && Inv(w3.j)
    ensures Do(w3, LoopStep(IDLE)) == World(Stale(m, size), 1)
  {
    JournalBoot.EmptyBoot(m, size, true, 1);
    JournalBoot.FirstBegin(m, size, WORKING);
    assert TrimBack(w0.j, 0, 0, WORKING) == w0.j;
    assert NumbersLeft(w0, BeginStep(true, WORKING));
    StepKeepsInv(w0, BeginStep(true, WORKING));
    StepKeepsInv(w1, PollStep);
    StepKeepsInv(w2, EndStep);
  }

  lemma StaleKeepsInv(m: nat, size: nat)
    requires 1 <= size && 2 * size < m
    ensures Inv(Stale(m, size))
  {
    JournalBoot.EmptyBoot(m, size, true, 1);
  }

  /**
   The run goes on: the next transaction is begun and started, and the next poll skips it. It is owed, but not
   in the queue, and without a reboot it never comes back.
   */
  lemma StartedIsSkipped(m: nat, size: nat) returns (ws: seq<World>, ss: seq<Step>)
    requires 1 <= size && 2 * size < m
    ensures Run(ws, ss) && |ws| == 8 && ws[0] == World(JournalBoot.Empty(m, size), 1)
    ensures ss == [BeginStep(true, WORKING), PollStep, EndStep, LoopStep(IDLE), BeginStep(true, WORKING),
                   LoopStep(JournalBoot.READY), PollStep]
    ensures TriggerOf(ws[5], ss[5]) == StartTrigger(1)
    ensures ws[7].j.Valid() && |ws[7].j.objs| == 2 && ws[7].j.objs[1].IsOwed() && !Queued(ws[7].j, 1)
  {
    var j4 := Stale(m, size);
    var j5 := j4.(end := 1, transaction := Some(1), store := map[0 := 1], objs := [ABORTED, JournalBoot.FIRST]);
    var j6 := j5.(objs := [ABORTED, JournalBoot.STARTED]);
    var w6 := World(j6, 2);
    SkippingSteps(m, size, j5, j6);
    ws, ss := StalePointerIsReached(m, size);
    hide Sound, Inv, Do, Enabled, Begin, Poll, Loop, Run, NumbersRemain;
    BeginGoesOn(ws, ss, true, WORKING, j5);
    ws, ss := ws + [World(j5, 1)], ss + [BeginStep(true, WORKING)];
    LoopGoesOn(ws, ss, JournalBoot.READY, j6, 2);
    ws, ss := ws + [w6], ss + [LoopStep(JournalBoot.READY)];
    PollGoesOn(ws, ss);
    ws, ss := ws + [World(Poll(j6), 2)], ss + [PollStep];
  }

  lemma SkippingSteps(m: nat, size: nat, j5: Journal, j6: Journal)
    requires 1 <= size && 2 * size < m
    requires j5 == Stale(m, size).(end := 1, transaction := Some(1), store := map[0 := 1],
                                   objs := [ABORTED, JournalBoot.FIRST])
    requires j6 == j5.(objs := [ABORTED, JournalBoot.STARTED])
    ensures Stale(m, size).Valid() && NumbersRemain(Stale(m, size), WORKING)
    ensures Begin(Stale(m, size), true, WORKING) == j5
    ensures j5.Valid() && CurrentFits(j5)
    ensures Loop(j5, JournalBoot.READY, 1) == (j6, StartTrigger(1), 2)
    ensures j6.Valid() && Poll(j6).objs == j6.objs && !Queued(Poll(j6), 1) && j6.objs[1].IsOwed()
  {
    JournalBoot.EmptyBoot(m, size, true, 1);
    assert TrimBack(Stale(m, size), 0, 0, WORKING) == Stale(m, size);
    assert Dist(j6.front, j6.end, m) == 1;
    PollKeepsRecords(j6);
    StalePointerSkipsFront(j6);
    SecondIsStarted(j5, j6);
  }

  lemma SecondIsStarted(j5: Journal, j6: Journal)
    requires j5.Valid() && j5.transaction == Some(1) && j5.objs == [ABORTED, JournalBoot.FIRST]
    requires j6 == j5.(objs := [ABORTED, JournalBoot.STARTED])
    ensures CurrentFits(j5) && Loop(j5, JournalBoot.READY, 1) == (j6, StartTrigger(1), 2)
  {
    assert Collect(j5, true) == j5;
    assert Decide(JournalBoot.FIRST, JournalBoot.READY, 1) == (JournalBoot.STARTED, Start);
    assert j5.objs[1 := JournalBoot.STARTED] == j6.objs;
  }

  // ----- FreeVend: a begin call inside loop() -----

  lemma LoopCollects(j: Journal, i: LoopInput, nextOp: nat)
    requires Inv(j)
    ensures CurrentFits(j)
    ensures var r := Loop(j, i, nextOp).0; r.transaction.None? ==> r == Collect(j, i.removed)
  {
    hide Decide, Collect;
    CurrentNumberFits(j);
  }

  lemma CollectDropsDone(j: Journal, removed: bool)
    requires Inv(j)
    ensures CurrentFits(j)
    ensures var r := Collect(j, removed);
            r.transaction.None? && r != j.(transaction := None) ==>
              j.begin != j.end && (Prev(j.end, j.m) in j.store ==> j.objs[j.store[Prev(j.end, j.m)]].IsDone())
  {
    CurrentNumberFits(j);
    if j.transaction.Some? {
      CurrentNumber(j);
    }
  }

  /** A call of loop() that ends without a current transaction changes nothing else, or drops the newest record. */
  lemma LoopWithoutTransaction(j: Journal, i: LoopInput, nextOp: nat)
    requires Inv(j)
    ensures CurrentFits(j)
    ensures var r := Loop(j, i, nextOp).0;
            r.transaction.None? ==>
              || r == j.(transaction := None)
              || (j.begin != j.end && (Prev(j.end, j.m) in j.store ==> j.objs[j.store[Prev(j.end, j.m)]].IsDone())
                  && r == DropNewest(j).(transaction := None))
  {
    hide Loop, Collect, DropNewest;
    LoopCollects(j, i, nextOp);
    CollectShape(j, i.removed);
    CollectDropsDone(j, i.removed);
  }

  /** Such a call leaves the queue polled exactly if it was before. */
  lemma LoopKeepsPolledIff(j: Journal, i: LoopInput, nextOp: nat)
    requires Inv(j)
    ensures CurrentFits(j)
    ensures var r := Loop(j, i, nextOp).0;
            r.transaction.None? ==> r.m == j.m && r.WindowSize() <= j.WindowSize() && (Polled(r) <==> Polled(j))
  {
    hide Loop;
    LoopWithoutTransaction(j, i, nextOp);
    var r := Loop(j, i, nextOp).0;
    if r.transaction.None? && r != j.(transaction := None) {
      DropNewestKeepsOrder(j);
      if Polled(j) {
        DropNewestKeepsPolled(j);
      } else {
        UnpolledPointerIsDone(j);
      }
    }
  }

  /**
   loop() may begin a FreeVend transaction in the same call in which it rolled the previous one back. No
   transaction is lost, whatever the file system does, if and only if the queue was polled before loop().
   */
  lemma FreeVendIsSafeIff(j: Journal, i: LoopInput, nextOp: nat)
    requires Inv(j) && j.WindowSize() + 1 < j.m
    ensures CurrentFits(j)
    ensures var r := Loop(j, i, nextOp).0;
            r.transaction.None? ==> (Polled(j) <==> forall env :: NothingLost(r, true, env))
  {
    LoopKeepsPolledIff(j, i, nextOp);
    LoopKeepsInv(j, i, nextOp);
    var r := Loop(j, i, nextOp).0;
    if r.transaction.None? {
      PolledIffNothingIsLost(r, true);
    }
  }
}
