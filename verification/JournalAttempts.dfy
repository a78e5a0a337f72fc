/**
 How often the messages of a transaction are handed out: every attempt is counted, and after the configured
 number of attempts the message is given up.
 */
module JournalAttempts {
  import opened Wrappers
  import opened Journal
  import opened JournalInvariant
  import opened JournalRuns
  import opened JournalSteps

  function OneIf(b: bool): nat { if b then 1 else 0 }

  /** From t to u, n attempts were made to send a message. Without an attempt its time stays. */
  ghost predicate CountedSend(t: SendStatus, u: SendStatus, n: nat) {
    u.attemptNr == t.attemptNr + n && (n == 0 ==> u.attemptTime == t.attemptTime)
  }

  /** n attempts for StartTx, k for StopTx. */
  ghost predicate Counted(t: Tx, u: Tx, n: nat, k: nat) {
    CountedSend(t.start, u.start, n) && CountedSend(t.stop, u.stop, k)
  }

  /** Handing out the message counts as one attempt of its transaction; no other attempt is counted. */
  ghost predicate AllCounted(j: Journal, r: Journal, message: Option<Message>) {
    |j.objs| <= |r.objs| &&
    forall id :: 0 <= id < |j.objs| ==>
      Counted(j.objs[id], r.objs[id], OneIf(message == Some(StartTx(id))), OneIf(message == Some(StopTx(id))))
  }

  lemma UpdateCounts(j: Journal, id: nat, t: Tx, message: Option<Message>)
    requires j.Valid() && id < |j.objs|
    requires Counted(j.objs[id], t, OneIf(message == Some(StartTx(id))), OneIf(message == Some(StopTx(id))))
    requires message.Some? ==> message.value.id == id
    ensures AllCounted(j, j.Update(id, t), message)
  {
  }

  lemma DecideCounts(t: Tx, i: LoopInput, opNr: nat)
    ensures Counted(t, Decide(t, i, opNr).0, 0, 0)
  {
  }

  lemma LoopCounts(w: World, i: LoopInput)
    requires Sound(w.j)
    ensures Enabled(w, LoopStep(i)) && AllCounted(w.j, Do(w, LoopStep(i)).j, None)
  {
    hide Decide, Collect;
    CollectKeepsInv(w.j, i.removed);
    CollectShape(w.j, i.removed);
    CurrentNumberFits(w.j);
    var j1 := Collect(w.j, i.removed);
    if j1.transaction.Some? {
      var id := j1.transaction.value;
      DecideCounts(j1.objs[id], i, w.nextOp);
      UpdateCounts(j1, id, Decide(j1.objs[id], i, w.nextOp).0, None);
    }
  }

  lemma FetchCounts(j: Journal, i: FetchInput)
    requires j.Valid()
    ensures AllCounted(j, Fetch(j, i).0, Fetch(j, i).1)
  {
    hide RetryDelay;
    if j.transactionFront.Some? && !j.objs[j.transactionFront.value].silent {
      var id := j.transactionFront.value;
      var t := j.objs[id];
      if t.start.requested && !t.start.confirmed {
        UpdateCounts(j, id, FetchStart(t, i).tx, Fetch(j, i).1);
      } else if t.stop.requested && !t.stop.confirmed {
        UpdateCounts(j, id, FetchStop(t, i).tx, Fetch(j, i).1);
      }
    }
  }

  lemma BeginCounts(j: Journal, authorized: bool, env: AllocEnv)
    requires Sound(j)
    ensures AllCounted(j, Begin(j, authorized, env), None)
  {
    if j.transaction.None? {
      MakeRoomKeepsInv(j, env);
    }
  }

  lemma StepCounts(w: World, s: Step)
    requires Sound(w.j) && Enabled(w, s)
    ensures AllCounted(w.j, Do(w, s).j, MessageOf(w, s))
  {
    match s
    case LoopStep(input) => LoopCounts(w, input);
    case BeginStep(authorized, env) => BeginCounts(w.j, authorized, env);
    case EndStep =>
    case PollStep => PollKeepsRecords(w.j);
    case FetchStep(fetch) => FetchCounts(w.j, fetch);
    case ReplyStep(id, reply) => UpdateCounts(w.j, id, ApplyReply(w.j.objs[id], reply), None);
  }

  /** How often StartTx, or StopTx, of a transaction is handed out in steps i to k of a run. */
  ghost function Sent(ws: seq<World>, ss: seq<Step>, i: nat, k: nat, m: Message): nat
    requires Run(ws, ss) && i <= k < |ws|
    decreases k
  {
    if i == k then 0 else Sent(ws, ss, i, k - 1, m) + OneIf(MessageOf(ws[k - 1], ss[k - 1]) == Some(m))
  }

  /** The attempt counters count what was handed out. */
  lemma {:induction false} AttemptsAreCounted(ws: seq<World>, ss: seq<Step>, i: nat, k: nat, id: nat)
    requires Run(ws, ss) && i <= k < |ws| && id < |ws[i].j.objs|
    ensures id < |ws[k].j.objs|
    ensures Counted(ws[i].j.objs[id], ws[k].j.objs[id], Sent(ws, ss, i, k, StartTx(id)), Sent(ws, ss, i, k, StopTx(id)))
    decreases k
  {
    hide Do, MessageOf, Enabled, Sound;
    if i < k {
      AttemptsAreCounted(ws, ss, i, k - 1, id);
      RunTakes(ws, ss, k - 1);
      StepCounts(ws[k - 1], ss[k - 1]);
    }
  }

  /** A message is handed out only while fewer attempts were made than are configured. */
  lemma HandedOutBelowLimit(w: World, s: Step, id: nat)
    requires Sound(w.j) && Enabled(w, s)
    requires MessageOf(w, s) == Some(StartTx(id)) || MessageOf(w, s) == Some(StopTx(id))
    ensures s.FetchStep? && id < |w.j.objs|
    ensures MessageOf(w, s) == Some(StartTx(id)) ==> w.j.objs[id].start.attemptNr < s.fetch.maxAttempts
    ensures MessageOf(w, s) == Some(StopTx(id)) ==> w.j.objs[id].stop.attemptNr < s.fetch.maxAttempts
  {
    hide RetryDelay;
  }

  ghost predicate AttemptsConfigured(ss: seq<Step>, limit: nat) {
    forall i :: 0 <= i < |ss| && ss[i].FetchStep? ==> ss[i].fetch.maxAttempts <= limit
  }

  /**
   With TransactionMessageAttempts at most limit, neither StartTx nor StopTx of a transaction is handed out more
   than limit times, counting from any moment of a run and with what was counted before.
   */
  lemma {:induction false} AttemptsAreBounded(ws: seq<World>, ss: seq<Step>, i: nat, k: nat, id: nat, limit: nat)
    requires Run(ws, ss) && i <= k < |ws| && id < |ws[i].j.objs| && AttemptsConfigured(ss, limit)
    ensures Sent(ws, ss, i, k, StartTx(id)) <= Max(0, limit - ws[i].j.objs[id].start.attemptNr)
    ensures Sent(ws, ss, i, k, StopTx(id)) <= Max(0, limit - ws[i].j.objs[id].stop.attemptNr)
    decreases k
  {
    hide Do, MessageOf, Enabled, Sound;
    if i < k {
      AttemptsAreBounded(ws, ss, i, k - 1, id, limit);
      AttemptsAreCounted(ws, ss, i, k - 1, id);
      RunTakes(ws, ss, k - 1);
      var m := MessageOf(ws[k - 1], ss[k - 1]);
      if m == Some(StartTx(id)) || m == Some(StopTx(id)) {
        HandedOutBelowLimit(ws[k - 1], ss[k - 1], id);
      }
    }
  }

  /**
   A fetch gives a transaction up only if the configured number of attempts was made for its pending message,
   counting what was handed out since any moment of the run and the attempts before, or its start time is lost.
   */
  lemma FetchGivesUpAfterAttempts(ws: seq<World>, ss: seq<Step>, i: nat, k: nat, id: nat)
    requires Run(ws, ss) && i <= k < |ss| && ss[k].FetchStep? && id < |ws[i].j.objs|
    requires id < |ws[k].j.objs| && id < |ws[k + 1].j.objs|
    requires !ws[k].j.objs[id].silent && ws[k + 1].j.objs[id].silent
    ensures var t, limit := ws[k].j.objs[id], ss[k].fetch.maxAttempts;
            if t.start.confirmed then ws[i].j.objs[id].stop.attemptNr + Sent(ws, ss, i, k, StopTx(id)) >= limit
            else ss[k].fetch.startTimeLost
                 || ws[i].j.objs[id].start.attemptNr + Sent(ws, ss, i, k, StartTx(id)) >= limit
  {
    hide Do, Sent;
    RunTakes(ws, ss, k);
    StepChanges(ws[k], ss[k], id);
    AttemptsAreCounted(ws, ss, i, k, id);
  }

  /** For a transaction that was created in the run, these are all attempts that there were. */
  lemma NewHasNoAttempts(ws: seq<World>, ss: seq<Step>, n: nat)
    requires Run(ws, ss) && n < |ss| && CreatesTransaction(ws[n], ss[n])
    ensures var id := |ws[n].j.objs|;
            && id < |ws[n + 1].j.objs|
            && ws[n + 1].j.objs[id].start.attemptNr == 0 && ws[n + 1].j.objs[id].stop.attemptNr == 0
  {
    hide Do;
    RunTakes(ws, ss, n);
    CreationAdds(ws[n], ss[n]);
  }

  /** A transaction is silent only if it was created so, or its last attempt failed, or its start time is lost. */
  lemma SilentOnlyIfGivenUp(ws: seq<World>, ss: seq<Step>, k: nat, id: nat)
    requires Run(ws, ss) && k < |ss| && id < |ws[k].j.objs|
    ensures id < |ws[k + 1].j.objs| && ws[k].j.Valid()
    ensures ws[k + 1].j.objs[id].silent <==> ws[k].j.objs[id].silent || GivesUp(ws[k], ss[k], id)
  {
    hide Do, GivesUp;
    RunTakes(ws, ss, k);
    StepChanges(ws[k], ss[k], id);
  }

  /** What handing out StartTx does to its counter and its time, and how long it has to wait. */
  lemma HandOutStart(w: World, s: Step, id: nat)
    requires Sound(w.j) && Enabled(w, s) && MessageOf(w, s) == Some(StartTx(id))
    ensures s.FetchStep? && id < |w.j.objs| && id < |Do(w, s).j.objs|
    ensures Do(w, s).j.objs[id].start.attemptTime == s.fetch.now
    ensures var t := w.j.objs[id].start; t.attemptTime + RetryDelay(t.attemptNr, s.fetch.retryInterval) <= s.fetch.now
  {
    hide RetryDelay;
  }

  lemma HandOutStop(w: World, s: Step, id: nat)
    requires Sound(w.j) && Enabled(w, s) && MessageOf(w, s) == Some(StopTx(id))
    ensures s.FetchStep? && id < |w.j.objs| && id < |Do(w, s).j.objs|
    ensures Do(w, s).j.objs[id].stop.attemptTime == s.fetch.now
    ensures var t := w.j.objs[id].stop; t.attemptTime + RetryDelay(t.attemptNr, s.fetch.retryInterval) <= s.fetch.now
  {
    hide RetryDelay;
  }

  /**
   Retries back off: when StartTx or StopTx of a transaction is handed out at step i and next at step k, then at
   least the number of attempts made so far times the retry interval has passed in between.
   */
  lemma RetriesAreSpaced(ws: seq<World>, ss: seq<Step>, i: nat, k: nat, id: nat, m: Message)
    requires Run(ws, ss) && i < k < |ss| && (m == StartTx(id) || m == StopTx(id))
    requires MessageOf(ws[i], ss[i]) == Some(m) && MessageOf(ws[k], ss[k]) == Some(m) && Sent(ws, ss, i + 1, k, m) == 0
    ensures ss[i].FetchStep? && ss[k].FetchStep? && id < |ws[k].j.objs|
    ensures var t := ws[k].j.objs[id];
            var attempts := if m.StartTx? then t.start.attemptNr else t.stop.attemptNr;
            ss[k].fetch.now - ss[i].fetch.now >= attempts * Max(0, ss[k].fetch.retryInterval)
  {
    hide Do, MessageOf, Enabled, Sound, Sent, RetryDelay;
    RunTakes(ws, ss, i);
    RunTakes(ws, ss, k);
    if m.StartTx? {
      HandOutStart(ws[i], ss[i], id);
      AttemptsAreCounted(ws, ss, i + 1, k, id);
      HandOutStart(ws[k], ss[k], id);
      RetryDelayIsProduct(ws[k].j.objs[id].start.attemptNr, ss[k].fetch.retryInterval);
    } else {
      HandOutStop(ws[i], ss[i], id);
      AttemptsAreCounted(ws, ss, i + 1, k, id);
      HandOutStop(ws[k], ss[k], id);
      RetryDelayIsProduct(ws[k].j.objs[id].stop.attemptNr, ss[k].fetch.retryInterval);
    }
  }
}
