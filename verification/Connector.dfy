/**
 The connector as the object it is: three window numbers and two transaction pointers that its methods
 update in place. Every method is proved to change the state exactly as the functions of module Journal
 say, so that the results about runs hold for the object.
 */
module ConnectorBase {
  import opened Wrappers
  import opened Cyclic
  import opened J = Journal
  import JournalInvariant
  import BootScan
  import JournalBoot
  import opened Selection

  /** FreeVend mode, and the readings of the plug input that belong to it. */
  datatype FreeVendInput = FreeVendInput(active: bool, pluggedAtFirst: bool, pluggedForBegin: bool, pluggedAfter: bool)

  class Connector {
    const maxTxCnt: nat
    const recordSize: nat
    const cleanAborted: bool

    var txNrBegin: nat
    var txNrFront: nat
    var txNrEnd: nat
    var transaction: Option<nat>
    var transactionFront: Option<nat>
    var store: map<nat, nat>
    var objs: seq<Tx>
    var trackLoopExecute: bool
    var freeVendTrackPlugged: bool

    ghost function State(): J.Journal
      reads this
    {
      J.Journal(maxTxCnt, recordSize, cleanAborted, txNrBegin, txNrFront, txNrEnd, transaction, transactionFront,
                store, objs)
    }

    ghost predicate Valid()
      reads this
    {
      State().Valid()
    }

    /** Boot: the window is read from the file names, the newest stored transaction becomes current. */
    constructor (connectorId: nat, fileNames: seq<string>, m: nat, size: nat, clean: bool,
                 files: map<nat, nat>, records: seq<Tx>)
      requires m > 0
      ensures State() == JournalBoot.Boot(m, size, clean, files, records, BootScan.NumbersOf(fileNames, connectorId))
    {
      maxTxCnt, recordSize, cleanAborted := m, size, clean;
      store, objs := files, records;
      var begin, end := BootScan.Recover(fileNames, connectorId, m);
      txNrBegin, txNrFront, txNrEnd := begin, begin, end;
      var txNrLatest := (end + m - 1) % m;
      transaction := if txNrLatest in files then Some(files[txNrLatest]) else None;
      transactionFront := None;
      trackLoopExecute, freeVendTrackPlugged := false, false;
    }

    // ----- cyclic arithmetic, as the source writes it -----

    method Successor(nr: nat) returns (r: nat)
      requires nr < maxTxCnt
      ensures r == Next(nr, maxTxCnt)
    {
      ModularForms(nr, nr, maxTxCnt);
      r := (nr + 1) % maxTxCnt;
    }

    method Predecessor(nr: nat) returns (r: nat)
      requires nr < maxTxCnt
      ensures r == Prev(nr, maxTxCnt)
    {
      ModularForms(nr, nr, maxTxCnt);
      r := (nr + maxTxCnt - 1) % maxTxCnt;
    }

    method Distance(from: nat, to: nat) returns (r: nat)
      requires from < maxTxCnt && to < maxTxCnt
      ensures r == Dist(from, to, maxTxCnt)
    {
      ModularForms(from, to, maxTxCnt);
      r := (to + maxTxCnt - from) % maxTxCnt;
    }

    // ----- the transaction store -----

    method GetTransaction(nr: nat) returns (tx: Option<nat>)
      requires Valid()
      ensures tx == State().Lookup(nr)
    {
      tx := if nr in store then Some(store[nr]) else None;
    }

    method CreateTransaction(silent: bool) returns (tx: nat)
      requires Valid()
      modifies this`store, this`objs
      ensures Valid() && State() == old(State().Create(silent)) && tx == old(|objs|)
    {
      tx := |objs|;
      store := store[txNrEnd := tx];
      objs := objs + [NewTx(txNrEnd, silent)];
    }

    /** Remove record txr at the end of the window. */
    method RemoveNewest(txr: nat)
      requires Valid() && txr == Prev(txNrEnd, maxTxCnt)
      modifies this`store, this`txNrFront, this`txNrEnd
      ensures Valid() && State() == old(JournalInvariant.DropNewest(State())) && txNrEnd == txr
    {
      store := store - {txr};
      if txNrFront == txNrEnd {
        txNrFront := txr;
      }
      txNrEnd := txr;
    }

    /** Remove record txl at the beginning of the window. */
    method RemoveOldest(txl: nat)
      requires Valid() && txl == txNrBegin
      modifies this`store, this`txNrFront, this`txNrBegin
      ensures Valid() && State() == old(JournalInvariant.DropOldest(State()))
    {
      store := store - {txl};
      txNrBegin := Successor(txl);
      if txNrFront == txl {
        txNrFront := txNrBegin;
      }
    }

    /** First loop of allocateTransaction. */
    method CleanBack(env: AllocEnv)
      requires Valid()
      modifies this`store, this`txNrFront, this`txNrEnd
      ensures Valid() && State() == old(TrimBack(State(), State().WindowSize(), 0, env))
    {
      hide TrimBack, TrimsBack, JournalInvariant.DropNewest;
      var txSize := Distance(txNrBegin, txNrEnd);
      ghost var goal := TrimBack(State(), txSize, 0, env);
      var txr, i := txNrEnd, 0;
      while i < txSize
        invariant 0 <= i <= txSize && Valid() && txr == txNrEnd
        invariant TrimBack(State(), txSize - i, i, env) == goal
      {
        JournalInvariant.TrimBackOnce(State(), txSize - i, i, env);
        txr := Predecessor(txr);
        var removable := TrimsAt(txr);
        if !removable || !env.trimOk(i) {
          return;
        }
        RemoveNewest(txr);
        i := i + 1;
      }
      JournalInvariant.TrimBackOnce(State(), 0, i, env);
    }

    /** Dangling silent transaction, aborted transaction, or corrupted entry. */
    method TrimsAt(txr: nat) returns (removable: bool)
      requires Valid()
      ensures removable <==> var tx := State().Lookup(txr); tx.None? || TrimsBack(objs[tx.value], cleanAborted)
    {
      var tx := GetTransaction(txr);
      removable := tx.None? || objs[tx.value].silent || (objs[tx.value].IsAborted() && cleanAborted);
    }

    /** Second loop of allocateTransaction; a record is created as soon as there is room. */
    method ReplaceHistory(env: AllocEnv) returns (tx: Option<nat>)
      requires Valid()
      modifies this`store, this`txNrFront, this`txNrBegin, this`objs
      ensures Valid()
      ensures var (r, ok) := old(TrimHistory(State(), State().WindowSize(), 0, env));
              if ok then State() == r.Create(false) && tx == Some(|r.objs|) else State() == r && tx == None
    {
      hide TrimHistory, TrimsHistory;
      tx := None;
      var txSize := Distance(txNrBegin, txNrEnd);
      ghost var goal := TrimHistory(State(), txSize, 0, env);
      var txl, i := txNrBegin, 0;
      while i < txSize
        invariant 0 <= i <= txSize && Valid() && txl == txNrBegin
        invariant TrimHistory(State(), txSize - i, i, env) == goal
      {
        JournalInvariant.TrimHistoryOnce(State(), txSize - i, i, env);
        var removable := IsHistory(txl);
        if !removable || !env.historyRemoveOk(i) {
          return;
        }
        RemoveOldest(txl);
        if env.historyCreateOk(i) {
          var id := CreateTransaction(false);
          return Some(id);
        }
        txl := Successor(txl);
        i := i + 1;
      }
      JournalInvariant.TrimHistoryOnce(State(), 0, i, env);
    }

    /** The oldest entry is history and can be removed, or it is corrupted. */
    method IsHistory(txl: nat) returns (removable: bool)
      requires Valid()
      ensures removable <==> var tx := State().Lookup(txl); tx.None? || TrimsHistory(objs[tx.value])
    {
      var txhist := GetTransaction(txl);
      removable := txhist.None? || objs[txhist.value].IsCompleted() || objs[txhist.value].IsAborted() ||
                   (objs[txhist.value].silent && objs[txhist.value].stop.requested);
    }

    /** The attempts to create a record after the end was cleaned; txNrEnd does not move yet. */
    method ProvideRecord(env: AllocEnv, ghost j1: J.Journal) returns (tx: Option<nat>, ghost room: Room)
      requires Valid() && State() == j1
      modifies this`txNrBegin, this`txNrFront, this`txNrEnd, this`store, this`objs
      ensures Valid()
      ensures var (r, ok) := TrimHistory(j1, j1.WindowSize(), 0, env);
              var fits := j1.WindowSize() < j1.size && env.createOk;
              if fits then room == Regular && State() == j1.Create(false) && tx == Some(|j1.objs|)
              else if ok then room == Regular && State() == r.Create(false) && tx == Some(|r.objs|)
              else if env.silentOffline && env.silentCreateOk then
                room == Silent && State() == r.Create(true) && tx == Some(|r.objs|)
              else room == NoRoom && State() == r && tx == None
    {
      tx, room := None, NoRoom;
      var txSize := Distance(txNrBegin, txNrEnd);
      if txSize < recordSize && env.createOk {
        var id := CreateTransaction(false);
        return Some(id), Regular;
      }
      tx := ReplaceHistory(env);
      if tx.Some? {
        room := Regular;
      } else if env.silentOffline && env.silentCreateOk {
        var id := CreateTransaction(true);
        tx, room := Some(id), Silent;
      }
    }

    method AllocateTransaction(env: AllocEnv) returns (tx: Option<nat>)
      requires Valid()
      modifies this`txNrBegin, this`txNrFront, this`txNrEnd, this`store, this`objs
      ensures Valid() && (State(), tx) == old(Allocate(State(), env))
    {
      CleanBack(env);
      ghost var room;
      tx, room := ProvideRecord(env, State());
      if tx.Some? {
        txNrEnd := Successor(txNrEnd);
      }
    }

    /**
     beginTransaction_authorized if authorized, beginTransaction otherwise or if preauthorized locally.
     reserved: the connector is reserved for another parent tag, which ends the call before the allocation.
     */
    method BeginTransaction(authorized: bool, reserved: bool, env: AllocEnv)
      requires Valid()
      modifies this`transaction, this`txNrBegin, this`txNrFront, this`txNrEnd, this`store, this`objs
      ensures Valid() && State() == if reserved then old(State()) else old(Begin(State(), authorized, env))
    {
      if transaction.Some? || reserved {
        return;
      }
      var tx := AllocateTransaction(env);
      if tx.None? {
        return;
      }
      objs := objs[tx.value := objs[tx.value].(authorized := authorized)];
      transaction := tx;
    }

    method EndTransaction()
      requires Valid()
      modifies this`objs
      ensures Valid() && State() == old(End(State()))
    {
      if transaction.None? || !objs[transaction.value].active {
        return;
      }
      objs := objs[transaction.value := objs[transaction.value].(active := false)];
    }

    method OcppPermitsCharge(freeVend: bool, startOnPowerPathClosed: bool) returns (permitted: bool)
      requires Valid()
      ensures permitted <==> PermitsCharge(State(), freeVend, startOnPowerPathClosed)
    {
      if transaction.None? {
        return false;
      }
      var t := objs[transaction.value];
      var suspendDeAuthorizedIdTag := t.deauthorized;
      if suspendDeAuthorizedIdTag && freeVend {
        suspendDeAuthorizedIdTag := false;
      }
      if startOnPowerPathClosed {
        return t.active && t.authorized && !suspendDeAuthorizedIdTag;
      } else {
        return t.IsRunning() && t.active && !suspendDeAuthorizedIdTag;
      }
    }

    /** The first part of loop(): collect a current transaction whose process is over. */
    method CollectTransaction(removed: bool)
      requires Valid() && (transaction.Some? ==> objs[transaction.value].nr < maxTxCnt)
      modifies this`transaction, this`txNrFront, this`txNrEnd, this`store
      ensures Valid() && State() == old(Collect(State(), removed))
    {
      if transaction.Some? {
        var t := objs[transaction.value];
        if (t.IsAborted() && cleanAborted) || (t.silent && t.stop.requested) {
          if removed {
            store := store - {t.nr};
            if txNrFront == txNrEnd {
              txNrFront := t.nr;
            }
            txNrEnd := t.nr;
          }
          transaction := None;
        }
      }
      if transaction.Some? && objs[transaction.value].IsAborted() {
        transaction := None;
      }
      if transaction.Some? && objs[transaction.value].stop.requested {
        transaction := None;
      }
    }

    /** The second part of loop(): conditions that end, start or stop the transaction process. */
    static method DecideTransaction(tx: Tx, i: LoopInput, nextOp: nat) returns (t: Tx, action: Action)
      ensures (t, action) == Decide(tx, i, nextOp)
    {
      t, action := tx, Keep;
      if i.hasPlugInput {
        if t.IsRunning() && t.active && !i.pluggedForStop && i.stopOnDisconnect {
          t := t.(active := false);
        }
        if t.active && !t.start.requested && !i.pluggedForTimeout && i.connectionTimedOut {
          t := t.(active := false);
        }
      }
      if t.active && t.deauthorized && (!t.IsRunning() || i.stopOnInvalidId) {
        t := t.(active := false);
      }
      if !t.IsRunning() {
        if t.active && t.authorized && (!i.hasPlugInput || i.pluggedForStart) &&
           i.operative && i.powerPathReady && i.startTxReady
        {
          t := t.(start := t.start.(requested := true, opNr := nextOp));
          if t.silent {
            t := t.(start := t.start.(confirmed := true));
          }
          action := Start;
        }
      } else if !t.active && i.stopTxReady {
        t := t.(stop := t.stop.(requested := true, opNr := nextOp));
        if t.silent {
          t := t.(stop := t.stop.(confirmed := true));
        }
        action := Stop;
      }
    }

    /** The transaction-related part of loop(). */
    method Loop(i: LoopInput, nextOp: nat) returns (trigger: Trigger, nextOp': nat)
      requires Valid() && (transaction.Some? ==> objs[transaction.value].nr < maxTxCnt)
      modifies this`transaction, this`txNrFront, this`txNrEnd, this`store, this`objs
      ensures Valid() && (State(), trigger, nextOp') == old(J.Loop(State(), i, nextOp))
    {
      trigger, nextOp' := NoTrigger, nextOp;
      CollectTransaction(i.removed);
      if transaction.None? {
        return;
      }
      var id := transaction.value;
      var t, action := DecideTransaction(objs[id], i, nextOp);
      objs := objs[id := t];
      match action {
        case Keep =>
        case Start => trigger, nextOp' := StartTrigger(id), nextOp + 1;
        case Stop => trigger, nextOp' := StopTrigger(id), nextOp + 1;
      }
    }

    /**
     loop() with its FreeVend part: a transaction is begun when an EV was just plugged in and there is no other
     transaction. loop() returns before that part if it triggers a message.
     */
    method LoopWithFreeVend(i: LoopInput, nextOp: nat, f: FreeVendInput, env: AllocEnv)
      returns (trigger: Trigger, nextOp': nat)
      requires Valid() && (transaction.Some? ==> objs[transaction.value].nr < maxTxCnt)
      modifies this
      ensures Valid() && trackLoopExecute
      ensures (trigger, nextOp') == old((J.Loop(State(), i, nextOp).1, J.Loop(State(), i, nextOp).2))
      ensures var first := !old(trackLoopExecute) && i.hasPlugInput;
              var wasPlugged := if first then f.pluggedAtFirst else old(freeVendTrackPlugged);
              var r := old(J.Loop(State(), i, nextOp).0);
              var handled := trigger == NoTrigger && f.active && i.hasPlugInput;
              && State() == (if handled && !wasPlugged && f.pluggedForBegin then Begin(r, true, env) else r)
              && freeVendTrackPlugged == (if handled then f.pluggedAfter else wasPlugged)
    {
      if !trackLoopExecute {
        trackLoopExecute := true;
        if i.hasPlugInput {
          freeVendTrackPlugged := f.pluggedAtFirst;
        }
      }
      trigger, nextOp' := Loop(i, nextOp);
      if trigger != NoTrigger {
        return;
      }
      if f.active && i.hasPlugInput {
        if !freeVendTrackPlugged && f.pluggedForBegin && transaction.None? {
          BeginTransaction(true, false, env);
        }
        freeVendTrackPlugged := f.pluggedAfter;
      }
    }

    method GetFrontRequestOpNr() returns (opNr: nat)
      requires Valid()
      modifies this
      ensures Valid() && State() == old(Poll(State())) && opNr == FrontOp(State())
    {
      var txSize := Distance(txNrFront, txNrEnd);
      if transactionFront.Some? && txSize == 0 {
        transactionFront := None;
      }
      AdvanceTransactionFront(txSize);
      opNr := NO_OPERATION;
      if transactionFront.Some? {
        var t := objs[transactionFront.value];
        if t.start.requested && !t.start.confirmed {
          return t.start.opNr;
        }
        if t.stop.requested && !t.stop.confirmed {
          return t.stop.opNr;
        }
      }
    }

    method AdvanceTransactionFront(txSize: nat)
      requires Valid()
      modifies this
      ensures Valid() && State() == old(AdvanceFront(State(), txSize))
    {
      var i := 0;
      while i < txSize
        invariant 0 <= i <= txSize && Valid()
        invariant AdvanceFront(State(), txSize - i) == old(AdvanceFront(State(), txSize))
      {
        if transactionFront.None? {
          transactionFront := GetTransaction(txNrFront);
        }
        if transactionFront.Some? && objs[transactionFront.value].IsDone() {
          transactionFront := None;
          txNrFront := Successor(txNrFront);
        } else {
          return;
        }
        i := i + 1;
      }
    }

    /** The next attempt is not due yet. */
    static method MustWait(status: SendStatus, i: FetchInput) returns (wait: bool)
      ensures wait <==> status.attemptTime + RetryDelay(status.attemptNr, i.retryInterval) > i.now
    {
      RetryDelayIsProduct(status.attemptNr, i.retryInterval);
      var nextAttempt := status.attemptTime + status.attemptNr * Max(0, i.retryInterval);
      wait := nextAttempt > i.now;
    }

    method FetchFrontRequest(i: FetchInput) returns (message: Option<Message>)
      requires Valid()
      modifies this`objs
      ensures Valid() && (State(), message) == old(Fetch(State(), i))
    {
      message := None;
      if transactionFront.None? || objs[transactionFront.value].silent {
        return;
      }
      var id := transactionFront.value;
      var t := objs[id];
      if t.start.requested && !t.start.confirmed {
        var cancelStartTx := i.startTimeLost;
        if t.start.attemptNr >= i.maxAttempts {
          cancelStartTx := true;
        }
        if cancelStartTx {
          objs := objs[id := t.(silent := true, active := false)];
          return;
        }
        var wait := MustWait(t.start, i);
        if wait {
          assert objs[id := t] == objs;
          return;
        }
        objs := objs[id := t.(start := t.start.(attemptNr := t.start.attemptNr + 1, attemptTime := i.now))];
        return Some(StartTx(id));
      }
      if t.stop.requested && !t.stop.confirmed {
        if t.stop.attemptNr >= i.maxAttempts {
          objs := objs[id := t.(silent := true)];
          return;
        }
        var wait := MustWait(t.stop, i);
        if wait {
          assert objs[id := t] == objs;
          return;
        }
        objs := objs[id := t.(stop := t.stop.(attemptNr := t.stop.attemptNr + 1, attemptTime := i.now))];
        return Some(StopTx(id));
      }
    }

    /** The listeners of Authorize, StartTransaction and StopTransaction requests. */
    method OnReply(id: nat, reply: JournalInvariant.Reply)
      requires Valid() && id < |objs|
      modifies this`objs
      ensures Valid() && State() == old(State().Update(id, JournalInvariant.ApplyReply(objs[id], reply)))
    {
      var t := objs[id];
      match reply {
        case AuthReply(AuthConf(accepted, reserved)) =>
          if !accepted {
            t := t.(deauthorized := true);
          } else if reserved {
            t := t.(active := false);
          } else {
            t := t.(authorized := true);
          }
        case AuthReply(AuthTimeout(blocked, local, unknown)) =>
          if blocked {
            t := t.(active := false);
          } else if local || unknown {
            t := t.(authorized := true);
          } else {
            t := t.(active := false);
          }
        case StartReply(accepted) =>
          if !accepted {
            t := t.(deauthorized := true);
          }
          t := t.(start := t.start.(confirmed := true));
        case StopReply => t := t.(stop := t.stop.(confirmed := true));
        case StartAborted(maxAttempts) =>
          if t.start.attemptNr >= maxAttempts {
            t := t.(silent := true, active := false);
          }
        case StopAborted(maxAttempts) =>
          if t.stop.attemptNr >= maxAttempts {
            t := t.(silent := true, active := false);
          }
      }
      objs := objs[id := t];
    }
  }
}
