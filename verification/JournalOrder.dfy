/**
 Operation numbers within one journal: the number that a polled connector reports is the smallest one in its
 queue, and if no poll was left out, the smallest one that it still owes to the server.
 */
module JournalOrder {
  import opened Wrappers
  import opened Cyclic
  import opened Journal
  import opened JournalInvariant
  import opened JournalRuns
  import opened Selection

  /** No record inside the window is missing. */
  ghost predicate NoGaps(j: Journal)
    requires j.Valid()
  {
    forall nr: nat :: nr < j.m && InWindow(j.begin, j.end, nr, j.m) ==> nr in j.store
  }

  /** The numbers of a transaction were issued before nextOp, StartTx before StopTx. */
  ghost predicate Issued(t: Tx, nextOp: nat) {
    && (t.start.requested ==> t.start.opNr < nextOp)
    && (t.stop.requested ==> t.start.opNr < t.stop.opNr < nextOp)
  }

  /** All numbers of t were issued before those of u. */
  ghost predicate Before(t: Tx, u: Tx) {
    u.start.requested ==>
      && (t.start.requested ==> t.start.opNr < u.start.opNr)
      && (t.stop.requested ==> t.stop.opNr < u.start.opNr)
  }

  ghost predicate BeforeAt(j: Journal, a: nat, b: nat)
    requires j.Valid() && a in j.store && b in j.store && a < j.m && b < j.m
  {
    Dist(j.begin, a, j.m) < Dist(j.begin, b, j.m) ==> Before(j.objs[j.store[a]], j.objs[j.store[b]])
  }

  ghost predicate Ascending(w: World) {
    && Sound(w.j) && NoGaps(w.j)
    && (forall id :: 0 <= id < |w.j.objs| ==> Issued(w.j.objs[id], w.nextOp))
    && (forall a, b :: a in w.j.store && b in w.j.store && a < w.j.m && b < w.j.m ==> BeforeAt(w.j, a, b))
  }

  /** Transaction t still has to send a message with number op. */
  ghost predicate TxOwes(t: Tx, op: nat) {
    t.IsOwed() &&
    ((!t.start.confirmed && op == t.start.opNr) || (t.stop.requested && op == t.stop.opNr))
  }

  ghost predicate Owes(objs: seq<Tx>, op: nat) {
    exists id :: 0 <= id < |objs| && TxOwes(objs[id], op)
  }

  /** A queued transaction still has to send a message with number op. */
  ghost predicate Queues(j: Journal, op: nat)
    requires j.Valid()
  {
    exists id :: 0 <= id < |j.objs| && TxOwes(j.objs[id], op) && Queued(j, id)
  }

  /** What is owed is queued, unless a poll was left out. */
  lemma OwedIsQueued(j: Journal, op: nat)
    requires Inv(j)
    ensures Owes(j.objs, op) <==> Queues(j, op)
  {
    InvMeansAllQueued(j);
  }

  // ----- steps keep the numbers ascending -----

  ghost predicate SameRequests(t: Tx, u: Tx) {
    && t.start.requested == u.start.requested && t.start.opNr == u.start.opNr
    && t.stop.requested == u.stop.requested && t.stop.opNr == u.stop.opNr
  }

  lemma UpdateKeepsAscending(w: World, id: nat, u: Tx)
    requires Ascending(w) && id < |w.j.objs| && SameRequests(w.j.objs[id], u)
    requires Sound(w.j.Update(id, u))
    ensures Ascending(w.(j := w.j.Update(id, u)))
  {
    var r := w.j.Update(id, u);
    forall a, b | a in r.store && b in r.store && a < r.m && b < r.m ensures BeforeAt(r, a, b) {
      assert BeforeAt(w.j, a, b);
    }
  }

  /** A record that was dropped at either end takes nothing away from the order of the others. */
  lemma SubsetKeepsAscending(w: World, r: Journal)
    requires Ascending(w) && Sound(r) && NoGaps(r) && r.m == w.j.m && r.objs == w.j.objs
    requires forall nr :: nr in r.store ==> nr in w.j.store && r.store[nr] == w.j.store[nr]
    requires r.begin == w.j.begin || (r.begin == Next(w.j.begin, w.j.m) && w.j.begin !in r.store)
    ensures Ascending(w.(j := r))
  {
    forall a, b | a in r.store && b in r.store && a < r.m && b < r.m ensures BeforeAt(r, a, b) {
      assert BeforeAt(w.j, a, b);
    }
  }

  lemma DropNewestKeepsNoGaps(j: Journal)
    requires j.Valid() && Ordered(j) && NoGaps(j) && j.begin != j.end
    ensures NoGaps(DropNewest(j))
  {
  }

  lemma DropOldestKeepsNoGaps(j: Journal)
    requires j.Valid() && Ordered(j) && NoGaps(j) && j.begin != j.end
    ensures NoGaps(DropOldest(j))
  {
  }

  lemma CollectKeepsAscending(w: World, removed: bool)
    requires Ascending(w)
    ensures w.j.transaction.Some? ==> w.j.objs[w.j.transaction.value].nr < w.j.m
    ensures Ascending(w.(j := Collect(w.j, removed)))
  {
    CollectKeepsInv(w.j, removed);
    CollectShape(w.j, removed);
    if w.j.begin != w.j.end {
      DropNewestKeepsNoGaps(w.j);
    }
    var r := Collect(w.j, removed);
    assert NoGaps(r.(transaction := None));
    SubsetKeepsAscending(w, r);
  }

  /** Starting or stopping the newest transaction with a fresh number. */
  lemma TriggerKeepsAscending(w: World, id: nat, u: Tx)
    requires Ascending(w) && w.j.transaction == Some(id) && Sound(w.j.Update(id, u))
    requires var t := w.j.objs[id];
             || (!t.start.requested && u.start.requested && !u.stop.requested && u.start.opNr == w.nextOp)
             || (t.start.requested && !t.stop.requested && u.start.requested && u.start.opNr == t.start.opNr
                 && u.stop.requested && u.stop.opNr == w.nextOp)
    ensures Ascending(World(w.j.Update(id, u), w.nextOp + 1))
  {
    var r := w.j.Update(id, u);
    var newest := Prev(w.j.end, w.j.m);
    forall a, b | a in r.store && b in r.store && a < r.m && b < r.m ensures BeforeAt(r, a, b) {
      assert BeforeAt(w.j, a, b);
      assert GoodRecord(w.j, a) && GoodRecord(w.j, b) && GoodRecord(w.j, newest);
    }
  }

  lemma DecideKeepsAscending(w: World, i: LoopInput)
    requires Ascending(w) && w.j.transaction.Some? && !w.j.objs[w.j.transaction.value].stop.requested
    ensures var id := w.j.transaction.value;
            var (u, action) := Decide(w.j.objs[id], i, w.nextOp);
            Ascending(World(w.j.Update(id, u), if action.Keep? then w.nextOp else w.nextOp + 1))
  {
    var id := w.j.transaction.value;
    assert GoodObject(w.j, id);
    DecideIsProgress(w.j.objs[id], i, w.nextOp);
    DecideRequests(w.j.objs[id], i, w.nextOp);
    var (u, action) := Decide(w.j.objs[id], i, w.nextOp);
    UpdateKeepsInv(w.j, id, u);
    if action.Keep? {
      UpdateKeepsAscending(w, id, u);
    } else {
      TriggerKeepsAscending(w, id, u);
    }
  }

  lemma LoopKeepsAscending(w: World, i: LoopInput)
    requires Ascending(w)
    ensures w.j.transaction.Some? ==> w.j.objs[w.j.transaction.value].nr < w.j.m
    ensures var r := Loop(w.j, i, w.nextOp); Ascending(World(r.0, r.2))
  {
    hide Collect, Decide, GoodStore, CurrentIsNewest, OthersSettled, GoodObjects, PointerIsFront, BeforeAt, NoGaps;
    AscendingIsSound(w);
    CollectKeepsInv(w.j, i.removed);
    CollectKeepsAscending(w, i.removed);
    var j1 := Collect(w.j, i.removed);
    if j1.transaction.Some? {
      DecideKeepsAscending(w.(j := j1), i);
    }
  }

  lemma DecideRequests(t: Tx, i: LoopInput, opNr: nat)
    requires LifeCycle(t) && !t.stop.requested
    ensures var (u, action) := Decide(t, i, opNr);
            && (action.Keep? ==> SameRequests(t, u))
            && (action.Start? ==> !u.stop.requested)
  {
  }

  // ----- beginning -----

  lemma DropNewestKeepsAscending(w: World)
    requires Ascending(w) && w.j.transaction.None? && w.j.begin != w.j.end
    requires Prev(w.j.end, w.j.m) in w.j.store ==> w.j.objs[w.j.store[Prev(w.j.end, w.j.m)]].IsDone()
    ensures Ascending(w.(j := DropNewest(w.j)))
  {
    DropNewestKeepsInv(w.j);
    DropNewestKeepsNoGaps(w.j);
    assert DropNewest(w.j).(transaction := None) == DropNewest(w.j);
    SubsetKeepsAscending(w, DropNewest(w.j));
  }

  lemma {:induction false} TrimBackKeepsAscending(w: World, k: nat, i: nat, env: AllocEnv)
    requires Ascending(w) && w.j.transaction.None? && k <= w.j.WindowSize()
    ensures Ascending(w.(j := TrimBack(w.j, k, i, env)))
    decreases k
  {
    if k > 0 {
      var tx := w.j.Lookup(Prev(w.j.end, w.j.m));
      if (tx.None? || TrimsBack(w.j.objs[tx.value], w.j.cleanAborted)) && env.trimOk(i) {
        DropNewestKeepsAscending(w);
        DropNewestKeepsPolled(w.j);
        TrimBackKeepsAscending(w.(j := DropNewest(w.j)), k - 1, i + 1, env);
      }
    }
  }

  lemma DropOldestKeepsAscending(w: World)
    requires Ascending(w) && w.j.transaction.None? && w.j.begin != w.j.end
    requires w.j.begin in w.j.store ==> w.j.objs[w.j.store[w.j.begin]].IsDone()
    ensures Ascending(w.(j := DropOldest(w.j)))
  {
    DropOldestKeepsInv(w.j);
    DropOldestKeepsNoGaps(w.j);
    SubsetKeepsAscending(w, DropOldest(w.j));
  }

  lemma AscendingIsSound(w: World)
    requires Ascending(w)
    ensures Sound(w.j)
  {
  }

  lemma {:induction false} TrimHistoryKeepsAscending(w: World, k: nat, i: nat, env: AllocEnv)
    requires Ascending(w) && w.j.transaction.None? && k <= w.j.WindowSize()
    ensures Ascending(w.(j := TrimHistory(w.j, k, i, env).0))
    decreases k
  {
    hide Ascending, TrimHistory, TrimsHistory, GoodStore, CurrentIsNewest, OthersSettled, GoodObjects, PointerIsFront;
    AscendingIsSound(w);
    TrimHistoryOnce(w.j, k, i, env);
    if k > 0 && OldestGoes(w.j, i, env) {
      if w.j.begin in w.j.store {
        TrimmedIsDone(w.j.objs[w.j.store[w.j.begin]], true);
      }
      DropOldestKeepsAscending(w);
      DropOldestKeepsInv(w.j);
      if !env.historyCreateOk(i) {
        TrimHistoryKeepsAscending(w.(j := DropOldest(w.j)), k - 1, i + 1, env);
      }
    }
  }

  lemma MakeRoomKeepsAscending(w: World, env: AllocEnv)
    requires Ascending(w) && w.j.transaction.None?
    ensures Ascending(w.(j := MakeRoom(w.j, env).0))
  {
    var k := w.j.WindowSize();
    TrimBackKeepsInv(w.j, k, 0, env);
    TrimBackKeepsAscending(w, k, 0, env);
    var j1 := TrimBack(w.j, k, 0, env);
    TrimHistoryKeepsAscending(w.(j := j1), j1.WindowSize(), 0, env);
  }

  lemma AppendKeepsAscending(w: World, silent: bool, authorized: bool)
    requires Ascending(w) && w.j.transaction.None? && w.j.WindowSize() + 1 < w.j.m
    ensures var j, id := Append(w.j, silent), |w.j.objs|;
            var r := j.(transaction := Some(id)).Update(id, j.objs[id].(authorized := authorized));
            Sound(r) ==> Ascending(w.(j := r))
  {
    var j1, id := Append(w.j, silent), |w.j.objs|;
    var r := j1.(transaction := Some(id)).Update(id, j1.objs[id].(authorized := authorized));
    if Sound(r) {
      hide OthersSettled, GoodObjects, PointerIsFront, CurrentIsNewest, LifeCycle;
      assert NoGaps(r);
      forall a, b | a in r.store && b in r.store && a < r.m && b < r.m ensures BeforeAt(r, a, b) {
        if a != w.j.end && b != w.j.end {
          assert BeforeAt(w.j, a, b);
        } else if a == w.j.end && b != w.j.end {
          assert GoodRecord(w.j, b);
        }
      }
    }
  }

  lemma BeginKeepsAscending(w: World, authorized: bool, env: AllocEnv)
    requires Ascending(w) && Enabled(w, BeginStep(authorized, env))
    ensures Ascending(w.(j := Begin(w.j, authorized, env)))
  {
    BeginKeepsInv(w.j, authorized, env);
    if w.j.transaction.None? {
      MakeRoomKeepsInv(w.j, env);
      MakeRoomKeepsAscending(w, env);
      var (j1, room) := MakeRoom(w.j, env);
      if !room.NoRoom? {
        AppendKeepsAscending(w.(j := j1), room.Silent?, authorized);
      }
    }
  }

  lemma PollKeepsAscending(w: World)
    requires Ascending(w)
    ensures Ascending(w.(j := Poll(w.j)))
  {
    PollKeepsInv(w.j);
    PollKeepsRecords(w.j);
    var r := Poll(w.j);
    forall a, b | a in r.store && b in r.store && a < r.m && b < r.m ensures BeforeAt(r, a, b) {
      assert BeforeAt(w.j, a, b);
    }
  }

  lemma AttemptSameRequests(t: Tx, i: FetchInput)
    ensures SameRequests(t, FetchStart(t, i).tx) && SameRequests(t, FetchStop(t, i).tx)
  {
  }

  lemma FetchKeepsAscending(w: World, i: FetchInput)
    requires Ascending(w)
    ensures Ascending(w.(j := Fetch(w.j, i).0))
  {
    FetchKeepsInv(w.j, i);
    if w.j.transactionFront.Some? && !w.j.objs[w.j.transactionFront.value].silent {
      var id := w.j.transactionFront.value;
      var t := w.j.objs[id];
      AttemptSameRequests(t, i);
      if t.start.requested && !t.start.confirmed {
        UpdateKeepsAscending(w, id, FetchStart(t, i).tx);
      } else if t.stop.requested && !t.stop.confirmed {
        UpdateKeepsAscending(w, id, FetchStop(t, i).tx);
      }
    }
  }

  lemma EndKeepsAscending(w: World)
    requires Ascending(w)
    ensures Ascending(w.(j := End(w.j)))
  {
    EndKeepsInv(w.j);
    if w.j.transaction.Some? && w.j.objs[w.j.transaction.value].active {
      var id := w.j.transaction.value;
      UpdateKeepsAscending(w, id, w.j.objs[id].(active := false));
    }
  }

  lemma ReplySameRequests(t: Tx, a: Reply)
    ensures SameRequests(t, ApplyReply(t, a))
  {
  }

  lemma ReplyKeepsAscending(w: World, id: nat, a: Reply)
    requires Ascending(w) && Enabled(w, ReplyStep(id, a))
    ensures Ascending(Do(w, ReplyStep(id, a)))
  {
    ReplyKeepsInv(w.j, id, a);
    ReplySameRequests(w.j.objs[id], a);
    UpdateKeepsAscending(w, id, ApplyReply(w.j.objs[id], a));
  }

  lemma StepKeepsAscending(w: World, s: Step)
    requires Ascending(w) && Enabled(w, s)
    ensures Ascending(Do(w, s)) && w.nextOp <= Do(w, s).nextOp
  {
    match s
    case LoopStep(input) => LoopKeepsAscending(w, input);
    case BeginStep(authorized, env) => BeginKeepsAscending(w, authorized, env);
    case EndStep => EndKeepsAscending(w);
    case PollStep => PollKeepsAscending(w);
    case FetchStep(fetch) => FetchKeepsAscending(w, fetch);
    case ReplyStep(id, reply) => ReplyKeepsAscending(w, id, reply);
  }

  // ----- the reported number -----

  /** A queued transaction comes at or after the front. */
  lemma QueuedComesAfterFront(w: World, id: nat)
    requires Ascending(w) && id < |w.j.objs| && Queued(w.j, id)
    ensures w.j.front != w.j.end && w.j.front in w.j.store
    ensures w.j.store[w.j.front] == id || Before(w.j.objs[w.j.store[w.j.front]], w.j.objs[id])
  {
    var j := w.j;
    var nr := j.objs[id].nr;
    assert GoodRecord(j, nr);
    assert BeforeAt(j, j.front, nr);
  }

  /**
   What a polled connector reports is the smallest operation number in its queue, and it reports none exactly
   if there is none.
   */
  lemma FrontOpIsSmallestQueued(w: World)
    requires Ascending(w) && Polled(w.j) && w.nextOp <= NO_OPERATION
    requires w.j.front != w.j.end && w.j.front in w.j.store ==> w.j.transactionFront.Some?
    ensures FrontOp(w.j) != NO_OPERATION ==> Queues(w.j, FrontOp(w.j))
    ensures forall op :: Queues(w.j, op) ==> FrontOp(w.j) <= op && FrontOp(w.j) != NO_OPERATION
  {
    var j := w.j;
    if j.transactionFront.Some? {
      var f := j.transactionFront.value;
      assert GoodObject(j, f) && GoodRecord(j, j.front);
      assert FrontOp(j) != NO_OPERATION ==> TxOwes(j.objs[f], FrontOp(j));
    }
    forall op | Queues(j, op) ensures FrontOp(j) <= op && FrontOp(j) != NO_OPERATION {
      var id :| 0 <= id < |j.objs| && TxOwes(j.objs[id], op) && Queued(j, id);
      QueuedComesAfterFront(w, id);
      QueuedIsNotBelowFront(w, id, op);
    }
  }

  lemma QueuedIsNotBelowFront(w: World, id: nat, op: nat)
    requires Ascending(w) && Polled(w.j) && w.nextOp <= NO_OPERATION
    requires id < |w.j.objs| && TxOwes(w.j.objs[id], op) && Queued(w.j, id)
    requires w.j.front != w.j.end && w.j.front in w.j.store && w.j.transactionFront.Some?
    requires w.j.store[w.j.front] == id || Before(w.j.objs[w.j.store[w.j.front]], w.j.objs[id])
    ensures FrontOp(w.j) <= op && FrontOp(w.j) != NO_OPERATION
  {
    var j := w.j;
    var f := j.transactionFront.value;
    assert Issued(j.objs[id], w.nextOp) && Issued(j.objs[f], w.nextOp);
    assert GoodObject(j, f) && GoodObject(j, id);
    if f != id {
      // the front transaction is not the newest one, so its process is over
      FrontOfTwoIsNotCurrent(j, id);
    }
  }

  lemma FrontOfTwoIsNotCurrent(j: Journal, id: nat)
    requires Sound(j) && id < |j.objs| && Queued(j, id)
    requires j.front != j.end && j.front in j.store && j.store[j.front] != id
    ensures j.transaction != Some(j.store[j.front]) && Settled(j.objs[j.store[j.front]])
  {
    assert GoodRecord(j, j.objs[id].nr) && GoodRecord(j, j.front);
    if j.transaction.Some? {
      assert GoodRecord(j, Prev(j.end, j.m));
    }
  }

  /** After getFrontRequestOpNr nothing in front of the queue is left to load. */
  lemma {:induction false} AdvanceFrontLoads(j: Journal, k: nat)
    requires Sound(j) && k == Dist(j.front, j.end, j.m)
    ensures var r := AdvanceFront(j, k); r.front != r.end && r.front in r.store ==> r.transactionFront.Some?
    decreases k
  {
    hide Ordered, GoodStore, CurrentIsNewest, OthersSettled, GoodObjects, PointerIsFront;
    if k > 0 {
      var j1 := if j.transactionFront.None? then j.(transactionFront := j.Lookup(j.front)) else j;
      LoadKeepsInv(j);
      assert Sound(j1) && AdvanceFront(j1, k) == AdvanceFront(j, k);
      if j1.transactionFront.Some? && j1.objs[j1.transactionFront.value].IsDone() {
        SkipKeepsInv(j1);
        AdvanceFrontLoads(j1.(transactionFront := None, front := Next(j1.front, j1.m)), k - 1);
      }
    }
  }

  /** The reported number is the smallest one that is left in the queue. */
  lemma PollReportsSmallestQueued(w: World)
    requires Ascending(w) && w.nextOp <= NO_OPERATION
    ensures var r := Poll(w.j);
            && (FrontOp(r) != NO_OPERATION ==> Queues(r, FrontOp(r)))
            && (forall op :: Queues(r, op) ==> FrontOp(r) <= op && FrontOp(r) != NO_OPERATION)
  {
    PollKeepsAscending(w);
    PollKeepsInv(w.j);
    var k := Dist(w.j.front, w.j.end, w.j.m);
    LoadKeepsInv(w.j);
    AdvanceFrontLoads(if k == 0 then w.j.(transactionFront := None) else w.j, k);
    FrontOpIsSmallestQueued(w.(j := Poll(w.j)));
  }

  /** If no poll was left out before, it is the smallest one that is owed at all. */
  lemma PollReportsSmallestOwed(w: World)
    requires Ascending(w) && Inv(w.j) && w.nextOp <= NO_OPERATION
    ensures var r := Poll(w.j);
            && (FrontOp(r) != NO_OPERATION ==> Owes(w.j.objs, FrontOp(r)))
            && (forall op :: Owes(w.j.objs, op) ==> FrontOp(r) <= op && FrontOp(r) != NO_OPERATION)
  {
    hide Queues, Owes;
    PollReportsSmallestQueued(w);
    PollKeepsInv(w.j);
    PollKeepsRecords(w.j);
    forall op ensures Owes(w.j.objs, op) <==> Queues(Poll(w.j), op) {
      OwedIsQueued(Poll(w.j), op);
    }
  }

  lemma QueuedWasIssued(w: World, op: nat)
    requires Ascending(w) && Queues(w.j, op)
    ensures op < w.nextOp
  {
  }

  // ----- the queue -----

  /** No transaction of j comes into the queue. */
  ghost predicate QueueShrinks(j: Journal, r: Journal)
    requires j.Valid() && r.Valid()
  {
    && |j.objs| <= |r.objs|
    && forall id :: 0 <= id < |j.objs| && Queued(r, id) ==> Queued(j, id)
  }

  lemma DropNewestShrinksQueue(j: Journal)
    requires Sound(j) && j.begin != j.end
    ensures QueueShrinks(j, DropNewest(j))
  {
    DropNewestKeepsOrder(j);
  }

  lemma DropOldestShrinksQueue(j: Journal)
    requires Sound(j) && j.begin != j.end
    ensures QueueShrinks(j, DropOldest(j))
  {
  }

  lemma {:induction false} TrimBackShrinksQueue(j: Journal, k: nat, i: nat, env: AllocEnv)
    requires Sound(j) && j.transaction.None? && k <= j.WindowSize()
    ensures QueueShrinks(j, TrimBack(j, k, i, env))
    decreases k
  {
    hide TrimBack, TrimsBack, GoodStore, CurrentIsNewest, OthersSettled, GoodObjects, PointerIsFront, Queued;
    TrimBackOnce(j, k, i, env);
    var tx := j.Lookup(Prev(j.end, j.m));
    if k > 0 && (tx.None? || TrimsBack(j.objs[tx.value], j.cleanAborted)) && env.trimOk(i) {
      if tx.Some? {
        TrimmedIsDone(j.objs[tx.value], j.cleanAborted);
      }
      DropNewestShrinksQueue(j);
      DropNewestKeepsInv(j);
      DropNewestKeepsPolled(j);
      assert DropNewest(j).(transaction := None) == DropNewest(j);
      TrimBackShrinksQueue(DropNewest(j), k - 1, i + 1, env);
    }
  }

  lemma {:induction false} TrimHistoryShrinksQueue(j: Journal, k: nat, i: nat, env: AllocEnv)
    requires Sound(j) && j.transaction.None? && k <= j.WindowSize()
    ensures QueueShrinks(j, TrimHistory(j, k, i, env).0)
    decreases k
  {
    hide TrimHistory, TrimsHistory, GoodStore, CurrentIsNewest, OthersSettled, GoodObjects, PointerIsFront, Queued;
    TrimHistoryOnce(j, k, i, env);
    if k > 0 && OldestGoes(j, i, env) {
      if j.begin in j.store {
        TrimmedIsDone(j.objs[j.store[j.begin]], true);
      }
      DropOldestShrinksQueue(j);
      DropOldestKeepsInv(j);
      if !env.historyCreateOk(i) {
        TrimHistoryShrinksQueue(DropOldest(j), k - 1, i + 1, env);
      }
    }
  }

  lemma AppendShrinksQueue(j: Journal, silent: bool)
    requires Sound(j) && j.WindowSize() + 1 < j.m
    ensures QueueShrinks(j, Append(j, silent))
  {
    AppendGeometry(j);
  }

  lemma BeginShrinksQueue(j: Journal, authorized: bool, env: AllocEnv)
    requires Sound(j) && (j.transaction.None? ==> MakeRoom(j, env).0.WindowSize() + 1 < j.m)
    ensures QueueShrinks(j, Begin(j, authorized, env))
  {
    if j.transaction.None? {
      hide TrimBack, TrimHistory, Queued;
      var k := j.WindowSize();
      TrimBackShrinksQueue(j, k, 0, env);
      TrimBackKeepsInv(j, k, 0, env);
      var j1 := TrimBack(j, k, 0, env);
      TrimHistoryShrinksQueue(j1, j1.WindowSize(), 0, env);
      MakeRoomKeepsInv(j, env);
      var (j2, room) := MakeRoom(j, env);
      if !room.NoRoom? {
        AppendShrinksQueue(j2, room.Silent?);
        var j3, id := Append(j2, room.Silent?), |j2.objs|;
        UpdateShrinksQueue(j3, id, j3.objs[id].(authorized := authorized), Some(id));
      }
    }
  }

  lemma UpdateShrinksQueue(j: Journal, id: nat, t: Tx, current: Option<nat>)
    requires j.Valid() && id < |j.objs| && t.nr == j.objs[id].nr && (current.Some? ==> current.value < |j.objs|)
    ensures QueueShrinks(j, j.Update(id, t).(transaction := current))
  {
  }

  lemma CollectShrinksQueue(j: Journal, removed: bool)
    requires Sound(j)
    ensures j.transaction.Some? ==> j.objs[j.transaction.value].nr < j.m
    ensures QueueShrinks(j, Collect(j, removed))
  {
    hide Queued;
    CollectShape(j, removed);
    var r := Collect(j, removed);
    QueueIgnoresCurrent(j);
    QueueIgnoresCurrent(r);
    if j.begin != j.end {
      DropNewestShrinksQueue(j);
      QueueIgnoresCurrent(DropNewest(j));
    }
  }

  lemma QueueIgnoresCurrent(j: Journal)
    requires j.Valid()
    ensures forall id :: 0 <= id < |j.objs| ==> (Queued(j, id) <==> Queued(j.(transaction := None), id))
  {
  }

  lemma LoopShrinksQueue(j: Journal, i: LoopInput, nextOp: nat)
    requires Sound(j)
    ensures j.transaction.Some? ==> j.objs[j.transaction.value].nr < j.m
    ensures QueueShrinks(j, Loop(j, i, nextOp).0)
  {
    hide Queued, Collect, Decide;
    CollectKeepsInv(j, i.removed);
    CollectShrinksQueue(j, i.removed);
    var j1 := Collect(j, i.removed);
    if j1.transaction.Some? {
      var id := j1.transaction.value;
      assert GoodObject(j1, id);
      DecideIsProgress(j1.objs[id], i, nextOp);
      UpdateShrinksQueue(j1, id, Decide(j1.objs[id], i, nextOp).0, j1.transaction);
    }
  }

  lemma PollShrinksQueue(j: Journal)
    requires j.Valid()
    ensures QueueShrinks(j, Poll(j))
  {
    PollKeepsRecords(j);
    var k := Dist(j.front, j.end, j.m);
    var j1 := if k == 0 then j.(transactionFront := None) else j;
    forall id | 0 <= id < |j.objs| && Queued(Poll(j), id) ensures Queued(j, id) {
      if !InWindow(j.front, j.end, j.objs[id].nr, j.m) {
        AdvanceFrontOnlyShrinks(j1, k, j.objs[id].nr);
      }
    }
  }

  lemma FetchShrinksQueue(j: Journal, i: FetchInput)
    requires j.Valid()
    ensures QueueShrinks(j, Fetch(j, i).0)
  {
    if j.transactionFront.Some? {
      var id := j.transactionFront.value;
      FetchStartIsProgress(j.objs[id], i);
      FetchStopIsProgress(j.objs[id], i);
      UpdateShrinksQueue(j, id, FetchStart(j.objs[id], i).tx, j.transaction);
      UpdateShrinksQueue(j, id, FetchStop(j.objs[id], i).tx, j.transaction);
    }
  }

  /** Only a new transaction comes into the queue: what was passed or removed never comes back. */
  lemma StepShrinksQueue(w: World, s: Step)
    requires Sound(w.j) && Enabled(w, s)
    ensures Do(w, s).j.Valid() && QueueShrinks(w.j, Do(w, s).j)
  {
    hide Queued;
    match s
    case LoopStep(input) => LoopShrinksQueue(w.j, input, w.nextOp);
    case BeginStep(authorized, env) => BeginShrinksQueue(w.j, authorized, env);
    case EndStep =>
      if w.j.transaction.Some? {
        var id := w.j.transaction.value;
        UpdateShrinksQueue(w.j, id, w.j.objs[id].(active := false), w.j.transaction);
      }
    case PollStep => PollShrinksQueue(w.j);
    case FetchStep(fetch) => FetchShrinksQueue(w.j, fetch);
    case ReplyStep(id, reply) =>
      ReplyIsProgress(w.j.objs[id], reply);
      UpdateShrinksQueue(w.j, id, ApplyReply(w.j.objs[id], reply), w.j.transaction);
  }

  /** Over any stretch of a run without reboot, a transaction that is not queued never comes back. */
  lemma {:induction false} PassedIsPassedForGood(ws: seq<World>, ss: seq<Step>, i: nat, k: nat, id: nat)
    requires Run(ws, ss) && i <= k < |ws|
    requires ws[i].j.Valid() && id < |ws[i].j.objs| && !Queued(ws[i].j, id)
    ensures ws[k].j.Valid() && id < |ws[k].j.objs| && !Queued(ws[k].j, id)
    decreases k
  {
    hide Sound, Do, Enabled, Queued;
    if i < k {
      PassedIsPassedForGood(ws, ss, i, k - 1, id);
      RunTakes(ws, ss, k - 1);
      StepShrinksQueue(ws[k - 1], ss[k - 1]);
    }
  }

  // ----- fresh numbers -----

  /** Requests that a step adds carry the next unused number, and new transactions request nothing yet. */
  ghost predicate FreshRequests(j: Journal, r: Journal, nextOp: nat) {
    && |j.objs| <= |r.objs|
    && (forall id :: |j.objs| <= id < |r.objs| ==> !r.objs[id].start.requested)
    && (forall id :: 0 <= id < |j.objs| ==>
          && (r.objs[id].start.requested && !j.objs[id].start.requested ==> r.objs[id].start.opNr >= nextOp)
          && (r.objs[id].stop.requested && !j.objs[id].stop.requested ==> r.objs[id].stop.opNr >= nextOp))
  }

  lemma DecideFreshRequests(t: Tx, i: LoopInput, opNr: nat)
    requires LifeCycle(t) && !t.stop.requested
    ensures var u := Decide(t, i, opNr).0;
            && (u.start.requested && !t.start.requested ==> u.start.opNr >= opNr)
            && (u.stop.requested && !t.stop.requested ==> u.stop.opNr >= opNr)
  {
    DecideIsProgress(t, i, opNr);
    DecideRequests(t, i, opNr);
  }

  lemma LoopFreshRequests(j: Journal, i: LoopInput, nextOp: nat)
    requires Sound(j)
    ensures j.transaction.Some? ==> j.objs[j.transaction.value].nr < j.m
    ensures FreshRequests(j, Loop(j, i, nextOp).0, nextOp)
  {
    CollectKeepsInv(j, i.removed);
    var j1 := Collect(j, i.removed);
    if j1.transaction.Some? {
      var id := j1.transaction.value;
      assert GoodObject(j1, id);
      DecideFreshRequests(j1.objs[id], i, nextOp);
      assert Loop(j, i, nextOp).0 == j1.Update(id, Decide(j1.objs[id], i, nextOp).0);
    }
  }

  lemma BeginFreshRequests(j: Journal, authorized: bool, env: AllocEnv, nextOp: nat)
    requires Sound(j)
    ensures FreshRequests(j, Begin(j, authorized, env), nextOp)
  {
    if j.transaction.None? {
      MakeRoomKeepsInv(j, env);
    }
  }

  lemma UpdateFreshRequests(j: Journal, id: nat, u: Tx, nextOp: nat)
    requires j.Valid() && id < |j.objs| && SameRequests(j.objs[id], u)
    ensures FreshRequests(j, j.Update(id, u), nextOp)
  {
  }

  lemma FetchFreshRequests(j: Journal, i: FetchInput, nextOp: nat)
    requires j.Valid()
    ensures FreshRequests(j, Fetch(j, i).0, nextOp)
  {
    if j.transactionFront.Some? {
      var id := j.transactionFront.value;
      AttemptSameRequests(j.objs[id], i);
      UpdateFreshRequests(j, id, FetchStart(j.objs[id], i).tx, nextOp);
      UpdateFreshRequests(j, id, FetchStop(j.objs[id], i).tx, nextOp);
    }
  }

  lemma StepFreshRequests(w: World, s: Step)
    requires Sound(w.j) && Enabled(w, s)
    ensures FreshRequests(w.j, Do(w, s).j, w.nextOp)
  {
    match s
    case LoopStep(input) => LoopFreshRequests(w.j, input, w.nextOp);
    case BeginStep(authorized, env) => BeginFreshRequests(w.j, authorized, env, w.nextOp);
    case EndStep =>
    case PollStep => PollKeepsRecords(w.j);
    case FetchStep(fetch) => FetchFreshRequests(w.j, fetch, w.nextOp);
    case ReplyStep(id, reply) =>
      ReplySameRequests(w.j.objs[id], reply);
      UpdateFreshRequests(w.j, id, ApplyReply(w.j.objs[id], reply), w.nextOp);
  }

  /** What is queued after a step was queued before, or has a fresh number. */
  lemma QueuedIsOldOrFresh(w: World, s: Step)
    requires Sound(w.j) && Enabled(w, s)
    ensures Do(w, s).j.Valid()
    ensures forall op: nat :: Queues(Do(w, s).j, op) ==> Queues(w.j, op) || op >= w.nextOp
    ensures s.FetchStep? ==> forall op: nat :: Queues(Do(w, s).j, op) ==> Queues(w.j, op)
  {
    hide Do, Queued;
    StepFreshRequests(w, s);
    StepProgress(w, s);
    StepShrinksQueue(w, s);
    var r := Do(w, s).j;
    forall op: nat | Queues(r, op) ensures Queues(w.j, op) || (op >= w.nextOp && !s.FetchStep?) {
      var id :| 0 <= id < |r.objs| && TxOwes(r.objs[id], op) && Queued(r, id);
      assert id < |w.j.objs| && GoodObject(w.j, id);
      TxOwedIsOldOrFresh(w.j.objs[id], r.objs[id], w.nextOp, op);
      if s.FetchStep? {
        FetchAddsNoRequest(w, s, id);
      }
    }
  }

  lemma FetchedWasQueued(w: World, i: FetchInput, op: nat)
    requires Ascending(w) && Queues(Fetch(w.j, i).0, op)
    ensures Queues(w.j, op)
  {
    hide Queues;
    QueuedIsOldOrFresh(w, FetchStep(i));
  }

  lemma PolledWasQueued(w: World, op: nat)
    requires Ascending(w) && Queues(Poll(w.j), op)
    ensures Queues(w.j, op)
  {
    hide Queues;
    PollKeepsAscending(w);
    QueuedIsOldOrFresh(w, PollStep);
    QueuedWasIssued(World(Poll(w.j), w.nextOp), op);
  }

  lemma TxOwedIsOldOrFresh(t: Tx, u: Tx, nextOp: nat, op: nat)
    requires Progress(t, u) && LifeCycle(t) && TxOwes(u, op)
    requires !t.start.requested ==> u.start.opNr >= nextOp
    requires u.stop.requested && !t.stop.requested ==> u.stop.opNr >= nextOp
    ensures TxOwes(t, op) || op >= nextOp
    ensures SameRequests(t, u) ==> TxOwes(t, op)
  {
  }

  lemma FetchAddsNoRequest(w: World, s: Step, id: nat)
    requires Sound(w.j) && Enabled(w, s) && s.FetchStep? && id < |w.j.objs|
    ensures id < |Do(w, s).j.objs| && SameRequests(w.j.objs[id], Do(w, s).j.objs[id])
  {
    if w.j.transactionFront.Some? {
      AttemptSameRequests(w.j.objs[w.j.transactionFront.value], s.fetch);
    }
  }

  lemma AscendingForLater(w: World, later: nat)
    requires Ascending(w) && w.nextOp <= later
    ensures Ascending(w.(nextOp := later))
  {
    forall a, b | a in w.j.store && b in w.j.store && a < w.j.m && b < w.j.m ensures BeforeAt(w.j, a, b) {
    }
  }
}
