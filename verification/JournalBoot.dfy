/**
 How the journal starts: empty, or recovered from flash at any moment of a run.
 */
module JournalBoot {
  import opened Wrappers
  import opened Cyclic
  import opened Journal
  import opened JournalInvariant
  import opened JournalRuns
  import JournalOrder
  import BootScan

  /** The state that the constructor sets up from the enumerated transaction numbers. */
  function Boot(m: nat, size: nat, cleanAborted: bool, store: map<nat, nat>, objs: seq<Tx>, nrs: seq<nat>): Journal
    requires m > 0
  {
    var s := BootScan.ScanAll(nrs, m);
    var latest := (s.end + m - 1) % m;
    Journal(m, size, cleanAborted, s.begin, s.begin, s.end,
            if latest in store then Some(store[latest]) else None, None, store, objs)
  }

  /** nrs enumerates the stored transaction numbers. */
  ghost predicate Enumerates(nrs: seq<nat>, store: map<nat, nat>) {
    forall nr :: nr in nrs <==> nr in store
  }

  /** An empty flash gives an empty journal, from which every run may begin. */
  lemma EmptyBoot(m: nat, size: nat, cleanAborted: bool, nextOp: nat)
    requires 1 <= size && 2 * size < m
    ensures var j := Boot(m, size, cleanAborted, map[], [], []);
            && Inv(j) && JournalOrder.Ascending(World(j, nextOp))
            && WindowBounded(j) && Polled(j) && j.WindowSize() == 0
  {
    ModularForms(0, 0, m);
  }

  /** An empty flash, and the first transaction. */
  function Empty(m: nat, size: nat): Journal
    requires 1 <= size && 2 * size < m
  {
    Boot(m, size, true, map[], [], [])
  }

  function First(m: nat, size: nat, t: Tx): Journal
    requires 1 <= size && 2 * size < m
  {
    Empty(m, size).(end := 1, transaction := Some(0), store := map[0 := 0], objs := [t])
  }

  const FIRST := NewTx(0, false).(authorized := true)

  lemma FirstBegin(m: nat, size: nat, env: AllocEnv)
    requires 1 <= size && 2 * size < m && env.createOk
    ensures Inv(Empty(m, size)) && Empty(m, size).Valid() && NumbersRemain(Empty(m, size), env)
    ensures Begin(Empty(m, size), true, env) == First(m, size, FIRST)
  {
    EmptyBoot(m, size, true, 1);
    var j := Empty(m, size);
    assert j.begin == 0 && j.end == 0 && TrimBack(j, 0, 0, env) == j;
  }

  lemma StoredNumbersAreValid(j: Journal, nrs: seq<nat>)
    requires Sound(j) && Enumerates(nrs, j.store) && j.m < 0x8000_0000
    ensures BootScan.ValidNumbers(nrs, j.m)
    ensures forall x :: x in nrs ==> x < j.m && InWindow(j.begin, j.end, x, j.m)
  {
    forall i | 0 <= i < |nrs| ensures nrs[i] < j.m {
      assert nrs[i] in nrs && GoodRecord(j, nrs[i]);
    }
    forall x | x in nrs ensures x < j.m && InWindow(j.begin, j.end, x, j.m) {
      assert GoodRecord(j, x);
    }
  }

  /** The window is one longer than half a turn, both of its ends are stored, and the listing starts with one. */
  ghost predicate StartsAtEnd(j: Journal, nrs: seq<nat>)
    requires j.Valid() && nrs != []
  {
    && j.WindowSize() == j.m / 2 + 1
    && j.begin in j.store && Prev(j.end, j.m) in j.store
    && (nrs[0] == j.begin || nrs[0] == Prev(j.end, j.m))
  }

  lemma StoredAroundFirst(j: Journal, nrs: seq<nat>)
    requires Sound(j) && Enumerates(nrs, j.store) && nrs != [] && j.m < 0x8000_0000
    requires j.WindowSize() <= j.m / 2 + 1 && !StartsAtEnd(j, nrs)
    ensures BootScan.ValidNumbers(nrs, j.m) && BootScan.AroundFirst(nrs, j.begin, j.m)
  {
    hide InWindow, Dist;
    StoredNumbersAreValid(j, nrs);
    assert nrs[0] in nrs;
    forall x | x in nrs
      ensures Dist(j.begin, x, j.m) < Dist(j.begin, nrs[0], j.m) + j.m / 2
      ensures Dist(j.begin, nrs[0], j.m) < Dist(j.begin, x, j.m) + j.m / 2
    {
      OnlyEndsAreFarApart(j.begin, j.end, x, nrs[0], j.m);
      assert x in j.store && nrs[0] in j.store;
    }
  }

  /** Two numbers of a window that is at most one longer than half a turn. */
  lemma OnlyEndsAreFarApart(begin: nat, end: nat, x: nat, y: nat, m: nat)
    requires begin < m && end < m && x < m && y < m && 2 <= m && Dist(begin, end, m) <= m / 2 + 1
    requires InWindow(begin, end, x, m) && InWindow(begin, end, y, m)
    ensures var dx, dy := Dist(begin, x, m), Dist(begin, y, m);
            || (dx < dy + m / 2 && dy < dx + m / 2)
            || (Dist(begin, end, m) == m / 2 + 1 && x == begin && y == Prev(end, m))
            || (Dist(begin, end, m) == m / 2 + 1 && y == begin && x == Prev(end, m))
  {
  }

  lemma NothingAfterLast(begin: nat, end: nat, x: nat, m: nat)
    requires begin < m && end < m && x < m && InWindow(begin, end, x, m)
    requires Dist(begin, Prev(end, m), m) <= Dist(begin, x, m)
    ensures x == Prev(end, m)
  {
  }

  /** The last recovered number is the newest stored one. */
  lemma RebootFindsNewest(j: Journal, nrs: seq<nat>)
    requires Sound(j) && Enumerates(nrs, j.store) && nrs != [] && j.m < 0x8000_0000
    requires j.WindowSize() <= j.m / 2 + 1 && !StartsAtEnd(j, nrs)
    ensures var s := BootScan.ScanAll(nrs, j.m);
            && s.begin < j.m && s.end < j.m && Prev(s.end, j.m) in j.store
            && (forall nr :: nr in j.store ==>
                  nr < j.m && Dist(j.begin, nr, j.m) <= Dist(j.begin, Prev(s.end, j.m), j.m))
            && (j.transaction.Some? ==> Prev(s.end, j.m) == Prev(j.end, j.m))
  {
    hide InWindow, Dist, StartsAtEnd, BootScan.AroundFirst, BootScan.ScanAll;
    StoredAroundFirst(j, nrs);
    StoredNumbersAreValid(j, nrs);
    BootScan.WindowEndsAreExtreme(nrs, j.begin, j.m);
    var s := BootScan.ScanAll(nrs, j.m);
    forall nr | nr in j.store
      ensures nr < j.m && Dist(j.begin, nr, j.m) <= Dist(j.begin, Prev(s.end, j.m), j.m)
    {
      assert nr in nrs;
    }
    if j.transaction.Some? {
      var newest := Prev(j.end, j.m);
      assert newest in nrs;
      NothingAfterLast(j.begin, j.end, Prev(s.end, j.m), j.m);
    }
  }

  /** The newest stored transaction becomes the current one; if it was not current before, it is settled. */
  lemma RebootKeepsCurrent(j: Journal, nrs: seq<nat>)
    requires Sound(j) && Enumerates(nrs, j.store) && nrs != [] && j.m < 0x8000_0000
    requires j.WindowSize() <= j.m / 2 + 1 && !StartsAtEnd(j, nrs)
    ensures var r := Boot(j.m, j.size, j.cleanAborted, j.store, j.objs, nrs);
            && r.Valid() && Prev(r.end, r.m) in r.store && r.transaction == Some(r.store[Prev(r.end, r.m)])
            && (j.transaction.Some? ==> r.transaction == j.transaction)
  {
    RebootFindsNewest(j, nrs);
    ModularForms(BootScan.ScanAll(nrs, j.m).end, 0, j.m);
  }

  lemma RecoveredWindowCovers(j: Journal, nrs: seq<nat>, x: nat)
    requires Sound(j) && Enumerates(nrs, j.store) && x in nrs && j.m < 0x8000_0000
    requires j.WindowSize() <= j.m / 2 + 1 && !StartsAtEnd(j, nrs)
    ensures var s := BootScan.ScanAll(nrs, j.m);
            x < j.m && s.begin < j.m && s.end < j.m && InWindow(s.begin, s.end, x, j.m)
  {
    hide InWindow, Dist, StartsAtEnd, BootScan.AroundFirst, BootScan.ScanAll;
    StoredAroundFirst(j, nrs);
    StoredNumbersAreValid(j, nrs);
    BootScan.WindowEndsAreExtreme(nrs, j.begin, j.m);
    var s := BootScan.ScanAll(nrs, j.m);
    CoveredBetween(j.begin, s.begin, x, s.end, j.m, j.end);
  }

  lemma CoveredBetween(origin: nat, begin: nat, x: nat, end: nat, m: nat, limit: nat)
    requires origin < m && begin < m && x < m && end < m && limit < m
    requires Dist(origin, begin, m) <= Dist(origin, x, m) <= Dist(origin, Prev(end, m), m)
    requires InWindow(origin, limit, Prev(end, m), m)
    ensures InWindow(begin, end, x, m)
  {
    DistFromOrigin(origin, begin, x, m);
    DistFromOrigin(origin, begin, Prev(end, m), m);
  }

  lemma RebootKeepsInv(j: Journal, nrs: seq<nat>)
    requires Sound(j) && Enumerates(nrs, j.store) && j.m < 0x8000_0000
    requires j.WindowSize() <= j.m / 2 + 1 && (nrs != [] ==> !StartsAtEnd(j, nrs))
    ensures Inv(Boot(j.m, j.size, j.cleanAborted, j.store, j.objs, nrs))
  {
    var r := Boot(j.m, j.size, j.cleanAborted, j.store, j.objs, nrs);
    if nrs == [] {
      assert j.store == map[];
      ModularForms(0, 0, j.m);
    } else {
      RebootKeepsCurrent(j, nrs);
    }
    forall nr | nr in r.store ensures GoodRecord(r, nr) {
      RecoveredWindowCovers(j, nrs, nr);
      assert nr in nrs && GoodRecord(j, nr);
    }
    forall id | 0 <= id < |r.objs| ensures GoodObject(r, id) {
      assert GoodObject(j, id);
    }
    assert OthersSettled(r);
  }

  /** If the listing starts with one end of such a window, the scan leaves the other end out. */
  lemma StartingAtEndForgets(j: Journal, nrs: seq<nat>)
    requires Sound(j) && Enumerates(nrs, j.store) && nrs != [] && j.m < 0x8000_0000 && StartsAtEnd(j, nrs)
    ensures var other := if nrs[0] == j.begin then Prev(j.end, j.m) else j.begin;
            var s := BootScan.ScanAll(nrs, j.m);
            other in j.store && s.begin < j.m && s.end < j.m && !InWindow(s.begin, s.end, other, j.m)
  {
    StoredNumbersAreValid(j, nrs);
    var other := if nrs[0] == j.begin then Prev(j.end, j.m) else j.begin;
    assert other in nrs;
    BootScan.WindowCoversExactlyNearNumbers(nrs, j.m, other);
  }

  /**
   A reboot keeps the invariant, so that the recovered journal again contains every transaction that the server
   has to learn about, if and only if it is not the case that the window is one longer than half of all numbers,
   both of its ends are stored, and the file system lists one of them first.
   */
  lemma RebootKeepsInvIff(j: Journal, nrs: seq<nat>)
    requires Sound(j) && Enumerates(nrs, j.store) && j.WindowSize() <= j.m / 2 + 1 && j.m < 0x8000_0000
    ensures Inv(Boot(j.m, j.size, j.cleanAborted, j.store, j.objs, nrs)) <==> nrs == [] || !StartsAtEnd(j, nrs)
  {
    if nrs == [] || !StartsAtEnd(j, nrs) {
      RebootKeepsInv(j, nrs);
    } else {
      StartingAtEndForgets(j, nrs);
      var other := if nrs[0] == j.begin then Prev(j.end, j.m) else j.begin;
      var r := Boot(j.m, j.size, j.cleanAborted, j.store, j.objs, nrs);
      assert r.Valid() && other in r.store ==> !GoodRecord(r, other);
    }
  }

  /**
   For a window of any length: the invariant is kept if and only if every stored number is less than half a turn
   away from the first one in the listing, and all transactions are settled but the one that becomes current, the
   last one less than half a turn ahead of it.
   */
  lemma RebootKeepsInvAnyLength(j: Journal, nrs: seq<nat>)
    requires Sound(j) && Enumerates(nrs, j.store) && nrs != [] && j.m < 0x8000_0000
    ensures BootScan.ValidNumbers(nrs, j.m)
    ensures Inv(Boot(j.m, j.size, j.cleanAborted, j.store, j.objs, nrs)) <==>
              && (forall x :: x in nrs ==> x < j.m && BootScan.Near(nrs[0], x, j.m))
              && (forall nr :: nr in j.store && !BootScan.LastAhead(nrs, nr, j.m) ==> Settled(j.objs[j.store[nr]]))
  {
    StoredNumbersAreValid(j, nrs);
    hide InWindow, BootScan.LastAhead, Dist, LifeCycle, Settled, BootScan.Near, BootScan.ScanAll, Boot, GoodRecord;
    BootParts(j, nrs);
    var s, r := BootScan.ScanAll(nrs, j.m), Boot(j.m, j.size, j.cleanAborted, j.store, j.objs, nrs);
    forall nr | nr in j.store
      ensures GoodRecord(r, nr) <==> BootScan.Near(nrs[0], nr, j.m)
      ensures r.transaction == Some(r.store[nr]) <==> BootScan.LastAhead(nrs, nr, j.m)
    {
      BootedRecord(j, nrs, nr);
      BootScan.WindowEndsAhead(nrs, j.m, nr);
    }
    forall id | 0 <= id < |r.objs| ensures GoodObject(r, id) {
      assert GoodObject(j, id);
    }
  }

  /** What the constructor sets up, whatever it has found. */
  lemma BootParts(j: Journal, nrs: seq<nat>)
    requires Sound(j) && Enumerates(nrs, j.store) && nrs != [] && j.m < 0x8000_0000
    ensures nrs[0] < j.m && forall x :: x in nrs ==> x < j.m
    ensures var s := BootScan.ScanAll(nrs, j.m);
            var r := Boot(j.m, j.size, j.cleanAborted, j.store, j.objs, nrs);
            && s.begin < j.m && s.end < j.m && Prev(s.end, j.m) in j.store
            && r.Valid() && r.m == j.m && r.store == j.store && r.objs == j.objs
            && r.begin == s.begin && r.end == s.end && r.transaction == Some(r.store[Prev(s.end, j.m)])
            && Ordered(r) && HistoryDone(r) && FrontPointer(r) && PointerIsFront(r) && CurrentIsNewest(r)
  {
    hide InWindow, Dist, Prev, Settled, LifeCycle, GoodObjects, OthersSettled, BootScan.ScanAll;
    ScanFindsStored(j, nrs);
    var s, r := BootScan.ScanAll(nrs, j.m), Boot(j.m, j.size, j.cleanAborted, j.store, j.objs, nrs);
    ModularForms(s.end, 0, j.m);
    EmptyHistory(r);
  }

  lemma ScanFindsStored(j: Journal, nrs: seq<nat>)
    requires Sound(j) && Enumerates(nrs, j.store) && nrs != [] && j.m < 0x8000_0000
    ensures nrs[0] < j.m && forall x :: x in nrs ==> x < j.m
    ensures var s := BootScan.ScanAll(nrs, j.m); s.begin < j.m && s.end < j.m && Prev(s.end, j.m) in j.store
  {
    hide InWindow, Dist, Prev, BootScan.ScanAll;
    StoredNumbersAreValid(j, nrs);
    BootScan.ScanKeepsAroundPivot(nrs, j.m);
  }

  lemma BootedRecord(j: Journal, nrs: seq<nat>, nr: nat)
    requires Sound(j) && Enumerates(nrs, j.store) && nrs != [] && nr in j.store && j.m < 0x8000_0000
    ensures var s := BootScan.ScanAll(nrs, j.m);
            var r := Boot(j.m, j.size, j.cleanAborted, j.store, j.objs, nrs);
            && r.Valid() && s.end < j.m && nr < j.m && nrs[0] < j.m && r.store == j.store
            && (GoodRecord(r, nr) <==> BootScan.Near(nrs[0], nr, j.m))
            && (r.transaction == Some(r.store[nr]) <==> nr == Prev(s.end, j.m))
  {
    hide InWindow, Dist, LifeCycle, Settled, BootScan.Near, BootScan.ScanAll, Boot;
    BootParts(j, nrs);
    StoredNumbersAreValid(j, nrs);
    BootScan.WindowCoversExactlyNearNumbers(nrs, j.m, nr);
    assert GoodRecord(j, nr) && GoodRecord(j, Prev(BootScan.ScanAll(nrs, j.m).end, j.m));
  }

  lemma EmptyHistory(r: Journal)
    requires r.Valid() && r.front == r.begin && r.transactionFront.None?
    ensures Ordered(r) && HistoryDone(r) && FrontPointer(r) && PointerIsFront(r)
  {
  }

  /**
   The exact condition at any moment of a run in which files can be removed. Only with the documented minimum of
   MAX_TX_CNT, 2 * MO_TXRECORD_SIZE + 1, and with the extra slot in use can the window be that long.
   */
  lemma RebootDuringRun(ws: seq<World>, ss: seq<Step>, i: nat, nrs: seq<nat>)
    requires BoundedRun(ws, ss) && i < |ws| && Enumerates(nrs, ws[i].j.store) && ws[i].j.m < 0x8000_0000
    ensures var j := ws[i].j;
            && j.Valid()
            && (Inv(Boot(j.m, j.size, j.cleanAborted, j.store, j.objs, nrs)) <==> nrs == [] || !StartsAtEnd(j, nrs))
            && (nrs != [] && StartsAtEnd(j, nrs) ==> j.m == 2 * j.size + 1 && j.WindowSize() == j.size + 1)
  {
    BoundedRunStays(ws, ss, i);
    RebootKeepsInvIff(ws[i].j, nrs);
  }

  /**
   A reboot that keeps the invariant queues everything again that the server has to learn about, even what a
   stale front pointer has skipped before.
   */
  lemma RebootQueuesOwed(ws: seq<World>, ss: seq<Step>, i: nat, nrs: seq<nat>, id: nat)
    requires BoundedRun(ws, ss) && i < |ws| && Enumerates(nrs, ws[i].j.store) && ws[i].j.m < 0x8000_0000
    requires ws[i].j.Valid() && (nrs == [] || !StartsAtEnd(ws[i].j, nrs))
    requires id < |ws[i].j.objs|
    requires var t := ws[i].j.objs[id]; t.start.requested && !t.stop.confirmed && !t.silent
    ensures var j := ws[i].j;
            var r := Boot(j.m, j.size, j.cleanAborted, j.store, j.objs, nrs);
            r.Valid() && r.objs == j.objs && Queued(r, id)
  {
    hide StartsAtEnd, BootScan.ScanAll, Queued;
    RebootDuringRun(ws, ss, i, nrs);
    var j := ws[i].j;
    InvMeansAllQueued(Boot(j.m, j.size, j.cleanAborted, j.store, j.objs, nrs));
  }

  /**
   The documented minimum of MAX_TX_CNT, 2 * MO_TXRECORD_SIZE + 1, is too small once the extra slot of a
   silent transaction is in use: the scan that meets number 0 first forgets number MO_TXRECORD_SIZE.
   */
  lemma DocumentedMinimumForgetsNewest(size: nat, nrs: seq<nat>)
    requires 1 <= size < 0x3FFF_FFFF && nrs != [] && nrs[0] == 0 && size in nrs
    requires forall i :: 0 <= i < |nrs| ==> nrs[i] <= size
    ensures var m := 2 * size + 1;
            var s := BootScan.ScanAll(nrs, m);
            s.begin < m && s.end < m && !InWindow(s.begin, s.end, size, m)
  {
    BootScan.WindowCoversExactlyNearNumbers(nrs, 2 * size + 1, size);
  }

  // ----- a run after which the reboot loses an owed transaction -----

  /** Everything is ready to start and to stop. */
  const READY := LoopInput(true, false, false, false, false, false, false, false, true, true, true, true)

  /** Files can be created and removed, and a transaction without room is made silent. */
  const OFFLINE := AllocEnv(_ => true, true, _ => true, _ => true, true, true)

  const STARTED := RequestStart(FIRST, 1)
  const STOPPED := RequestStop(STARTED.(active := false), 2)

  /** MAX_TX_CNT 3, MO_TXRECORD_SIZE 1: a stopped transaction and a silent one that is current. */
  function WithSilent(): Journal {
    First(3, 1, STOPPED).(end := 2, transaction := Some(1), store := map[0 := 0, 1 := 1],
                          objs := [STOPPED, NewTx(1, true).(authorized := true)])
  }

  lemma FirstIsStarted()
    ensures First(3, 1, FIRST).Valid() && CurrentFits(First(3, 1, FIRST))
    ensures Loop(First(3, 1, FIRST), READY, 1).0 == First(3, 1, STARTED)
    ensures Loop(First(3, 1, FIRST), READY, 1).2 == 2
    ensures First(3, 1, STARTED).Valid() && End(First(3, 1, STARTED)) == First(3, 1, STARTED.(active := false))
  {
  }

  lemma FirstIsStopped()
    ensures var j := First(3, 1, STARTED.(active := false));
            j.Valid() && CurrentFits(j) && Loop(j, READY, 2).0 == First(3, 1, STOPPED) && Loop(j, READY, 2).2 == 3
    ensures var j := First(3, 1, STOPPED);
            j.Valid() && CurrentFits(j) && Loop(j, READY, 3).0 == j.(transaction := None) && Loop(j, READY, 3).2 == 3
  {
  }

  lemma SecondIsSilent()
    ensures var j := First(3, 1, STOPPED).(transaction := None);
            && j.Valid() && NumbersRemain(j, OFFLINE)
            && Begin(j, true, OFFLINE) == WithSilent()
  {
    var j := First(3, 1, STOPPED).(transaction := None);
    assert TrimBack(j, 1, 0, OFFLINE) == j;
    assert TrimHistory(j, 1, 0, OFFLINE) == (j, false);
  }

  /** A run without polls, in which there is no front pointer. */
  lemma SilentRun() returns (ws: seq<World>, ss: seq<Step>)
    ensures Run(ws, ss) && |ws| == 7 && ws[0] == World(Empty(3, 1), 1) && ws[6] == World(WithSilent(), 3)
    ensures ss == [BeginStep(true, OFFLINE), LoopStep(READY), EndStep, LoopStep(READY), LoopStep(READY),
                   BeginStep(true, OFFLINE)]
    ensures forall i :: 0 <= i < |ws| ==> ws[i].j.transactionFront.None?
  {
    hide Inv, Sound, Run, Loop, Begin, End, NumbersRemain, Empty, First, WithSilent, STARTED, STOPPED, FIRST;
    FirstBegin(3, 1, OFFLINE);
    FirstIsStarted();
    FirstIsStopped();
    SecondIsSilent();
    NoPointers();
    var j0, j1, j2 := Empty(3, 1), First(3, 1, FIRST), First(3, 1, STARTED);
    var j3, j4 := First(3, 1, STARTED.(active := false)), First(3, 1, STOPPED);
    var j5, j6 := j4.(transaction := None), WithSilent();
    ws, ss := [World(j0, 1)], [];
    RunStarts(World(j0, 1));
    BeginGoesOn(ws, ss, true, OFFLINE, j1);
    ws, ss := ws + [World(j1, 1)], ss + [BeginStep(true, OFFLINE)];
    LoopGoesOn(ws, ss, READY, j2, 2);
    ws, ss := ws + [World(j2, 2)], ss + [LoopStep(READY)];
    EndGoesOn(ws, ss, j3);
    ws, ss := ws + [World(j3, 2)], ss + [EndStep];
    LoopGoesOn(ws, ss, READY, j4, 3);
    ws, ss := ws + [World(j4, 3)], ss + [LoopStep(READY)];
    LoopGoesOn(ws, ss, READY, j5, 3);
    ws, ss := ws + [World(j5, 3)], ss + [LoopStep(READY)];
    BeginGoesOn(ws, ss, true, OFFLINE, j6);
    ws, ss := ws + [World(j6, 3)], ss + [BeginStep(true, OFFLINE)];
  }

  lemma NoPointers()
    ensures Empty(3, 1).transactionFront.None? && WithSilent().transactionFront.None?
    ensures forall t :: First(3, 1, t).transactionFront.None?
  {
  }

  /**
   In this run the first transaction is owed and the window has its extra slot in use. If the file system lists
   the newest record first, the queue after the reboot does not contain the owed one.
   */
  lemma OwedIsForgotten() returns (ws: seq<World>, ss: seq<Step>)
    ensures PolledRun(ws, ss) && ws[0] == World(Empty(3, 1), 1)
    ensures ss == [BeginStep(true, OFFLINE), LoopStep(READY), EndStep, LoopStep(READY), LoopStep(READY),
                   BeginStep(true, OFFLINE)]
    ensures RemovalsSucceed(OFFLINE)
    ensures ws[6].j.Valid() && WindowBounded(ws[6].j) && Forgets(ws[6].j, [1, 0], 0)
  {
    hide Inv, Sound, Run, PolledRun, Empty, WithSilent, Forgets, WindowBounded;
    ws, ss := SilentRun();
    FirstBegin(3, 1, OFFLINE);
    PolledWithoutPointers(ws, ss);
    RunIsSound(ws, ss, 6);
    NewestFirst();
  }

  lemma PolledWithoutPointers(ws: seq<World>, ss: seq<Step>)
    requires Run(ws, ss) && Inv(ws[0].j) && forall i :: 0 <= i < |ws| ==> ws[i].j.transactionFront.None?
    ensures PolledRun(ws, ss)
  {
  }

  /** The server has to learn about transaction id, which is queued, and which is not after the reboot. */
  ghost predicate Forgets(j: Journal, nrs: seq<nat>, id: nat)
    requires j.Valid()
  {
    && Enumerates(nrs, j.store) && id < |j.objs| && j.objs[id].IsOwed() && Queued(j, id)
    && var r := Boot(j.m, j.size, j.cleanAborted, j.store, j.objs, nrs);
       r.Valid() && !Queued(r, id)
  }

  lemma NewestFirst()
    requires Sound(WithSilent())
    ensures WithSilent().Valid() && WindowBounded(WithSilent()) && Forgets(WithSilent(), [1, 0], 0)
  {
    var j, nrs := WithSilent(), [1, 0];
    StartingAtEndForgets(j, nrs);
    ModularForms(BootScan.ScanAll(nrs, 3).end, 0, 3);
  }
}
