/**
 When charging is permitted, over whole runs: what the flags of a transaction say is the history of the run, and
 a connector supplies power exactly for a transaction that was granted, started, and not refused or ended.
 */
module JournalCharging {
  import opened Wrappers
  import opened Journal
  import opened JournalInvariant
  import opened JournalRuns
  import opened JournalSteps

  // ----- events of a run -----

  /** In step n transaction id is begun with an authorization, or its authorization is granted. */
  ghost predicate GrantsAt(ws: seq<World>, ss: seq<Step>, n: nat, id: nat)
    requires n < |ss| < |ws|
  {
    || (CreatesTransaction(ws[n], ss[n]) && ss[n].authorized && |ws[n].j.objs| == id)
    || (ss[n].ReplyStep? && ss[n].id == id && ss[n].reply.AuthReply? && Grants(ss[n].reply.answer))
  }

  /** In step n an answer refuses the tag of transaction id. */
  ghost predicate RefusesAt(ss: seq<Step>, n: nat, id: nat)
    requires n < |ss|
  {
    ss[n].ReplyStep? && ss[n].id == id && Refuses(ss[n].reply)
  }

  ghost predicate EndsAt(ws: seq<World>, ss: seq<Step>, n: nat, id: nat)
    requires n < |ss| < |ws|
  {
    ws[n].j.Valid() && id < |ws[n].j.objs| && EndsProcess(ws[n], ss[n], id)
  }

  ghost predicate TriggersAt(ws: seq<World>, ss: seq<Step>, n: nat, trigger: Trigger)
    requires n < |ss| < |ws|
  {
    TriggerOf(ws[n], ss[n]) == trigger
  }

  // ----- the history of a transaction before state k -----

  /** The transaction is one of those that the run begins with. */
  ghost predicate FromBefore(ws: seq<World>, id: nat)
    requires |ws| > 0
  {
    id < |ws[0].j.objs|
  }

  ghost predicate Granted(ws: seq<World>, ss: seq<Step>, k: nat, id: nat)
    requires k <= |ss| < |ws|
  {
    (FromBefore(ws, id) && ws[0].j.objs[id].authorized) || exists n :: 0 <= n < k && GrantsAt(ws, ss, n, id)
  }

  ghost predicate Refused(ws: seq<World>, ss: seq<Step>, k: nat, id: nat)
    requires k <= |ss| < |ws|
  {
    (FromBefore(ws, id) && ws[0].j.objs[id].deauthorized) || exists n :: 0 <= n < k && RefusesAt(ss, n, id)
  }

  ghost predicate Ended(ws: seq<World>, ss: seq<Step>, k: nat, id: nat)
    requires k <= |ss| < |ws|
  {
    (FromBefore(ws, id) && !ws[0].j.objs[id].active) || exists n :: 0 <= n < k && EndsAt(ws, ss, n, id)
  }

  ghost predicate Started(ws: seq<World>, ss: seq<Step>, k: nat, id: nat)
    requires k <= |ss| < |ws|
  {
    || (FromBefore(ws, id) && ws[0].j.objs[id].start.requested)
    || exists n :: 0 <= n < k && TriggersAt(ws, ss, n, StartTrigger(id))
  }

  ghost predicate Stopped(ws: seq<World>, ss: seq<Step>, k: nat, id: nat)
    requires k <= |ss| < |ws|
  {
    || (FromBefore(ws, id) && ws[0].j.objs[id].stop.requested)
    || exists n :: 0 <= n < k && TriggersAt(ws, ss, n, StopTrigger(id))
  }

  lemma {:induction false} TransactionsStay(ws: seq<World>, ss: seq<Step>, i: nat, k: nat)
    requires Run(ws, ss) && i <= k < |ws|
    ensures |ws[i].j.objs| <= |ws[k].j.objs|
    decreases k
  {
    hide Sound, Do, Enabled;
    if i < k {
      TransactionsStay(ws, ss, i, k - 1);
      RunTakes(ws, ss, k - 1);
      StepProgress(ws[k - 1], ss[k - 1]);
    }
  }

  /** Nothing happens to a transaction before it is begun. */
  lemma NoEventsBefore(ws: seq<World>, ss: seq<Step>, n: nat, id: nat)
    requires Run(ws, ss) && n < |ss| && |ws[n + 1].j.objs| <= id
    ensures !GrantsAt(ws, ss, n, id) && !RefusesAt(ss, n, id) && !EndsAt(ws, ss, n, id)
    ensures !TriggersAt(ws, ss, n, StartTrigger(id)) && !TriggersAt(ws, ss, n, StopTrigger(id))
  {
    hide Do, Loop;
    TransactionsStay(ws, ss, n, n + 1);
    RunTakes(ws, ss, n);
    CreationAdds(ws[n], ss[n]);
    TriggerMeaning(ws[n], ss[n], id);
  }

  /** The flags of a transaction say what happened to it. */
  ghost predicate FlagsAreHistory(ws: seq<World>, ss: seq<Step>, k: nat, id: nat)
    requires k <= |ss| < |ws| && id < |ws[k].j.objs|
  {
    var t := ws[k].j.objs[id];
    && (t.authorized <==> Granted(ws, ss, k, id))
    && (t.deauthorized <==> Refused(ws, ss, k, id))
    && (t.active <==> !Ended(ws, ss, k, id))
    && (t.start.requested <==> Started(ws, ss, k, id))
    && (t.stop.requested <==> Stopped(ws, ss, k, id))
  }

  lemma HistoryOfNew(ws: seq<World>, ss: seq<Step>, k: nat, id: nat)
    requires Run(ws, ss) && 0 < k < |ws| && |ws[k - 1].j.objs| <= id < |ws[k].j.objs|
    ensures FlagsAreHistory(ws, ss, k, id)
  {
    hide Sound, Enabled, Do, GrantsAt, RefusesAt, EndsAt, TriggersAt;
    TransactionsStay(ws, ss, 0, k - 1);
    RunTakes(ws, ss, k - 1);
    CreationAdds(ws[k - 1], ss[k - 1]);
    forall n | 0 <= n < k - 1
      ensures !GrantsAt(ws, ss, n, id) && !RefusesAt(ss, n, id) && !EndsAt(ws, ss, n, id)
      ensures !TriggersAt(ws, ss, n, StartTrigger(id)) && !TriggersAt(ws, ss, n, StopTrigger(id))
    {
      TransactionsStay(ws, ss, n + 1, k - 1);
      NoEventsBefore(ws, ss, n, id);
    }
    CreatedNow(ws, ss, k - 1, id);
  }

  lemma CreatedNow(ws: seq<World>, ss: seq<Step>, n: nat, id: nat)
    requires Run(ws, ss) && n < |ss| && id == |ws[n].j.objs| && CreatesTransaction(ws[n], ss[n])
    ensures GrantsAt(ws, ss, n, id) <==> ss[n].authorized
    ensures !RefusesAt(ss, n, id) && !EndsAt(ws, ss, n, id)
    ensures !TriggersAt(ws, ss, n, StartTrigger(id)) && !TriggersAt(ws, ss, n, StopTrigger(id))
  {
  }

  lemma HistoryGrows(ws: seq<World>, ss: seq<Step>, k: nat, id: nat)
    requires 0 < k <= |ss| < |ws|
    ensures Granted(ws, ss, k, id) <==> Granted(ws, ss, k - 1, id) || GrantsAt(ws, ss, k - 1, id)
    ensures Refused(ws, ss, k, id) <==> Refused(ws, ss, k - 1, id) || RefusesAt(ss, k - 1, id)
    ensures Ended(ws, ss, k, id) <==> Ended(ws, ss, k - 1, id) || EndsAt(ws, ss, k - 1, id)
    ensures Started(ws, ss, k, id) <==> Started(ws, ss, k - 1, id) || TriggersAt(ws, ss, k - 1, StartTrigger(id))
    ensures Stopped(ws, ss, k, id) <==> Stopped(ws, ss, k - 1, id) || TriggersAt(ws, ss, k - 1, StopTrigger(id))
  {
    hide GrantsAt, RefusesAt, EndsAt, TriggersAt;
  }

  lemma HistoryGoesOn(ws: seq<World>, ss: seq<Step>, k: nat, id: nat)
    requires Run(ws, ss) && 0 < k < |ws| && id < |ws[k - 1].j.objs| && FlagsAreHistory(ws, ss, k - 1, id)
    ensures id < |ws[k].j.objs| && FlagsAreHistory(ws, ss, k, id)
  {
    hide Enabled, Do, GrantsAt, RefusesAt, EndsAt, TriggersAt, Granted, Refused, Ended, Started, Stopped;
    HistoryGrows(ws, ss, k, id);
    RunTakes(ws, ss, k - 1);
    StepChanges(ws[k - 1], ss[k - 1], id);
    EventsNow(ws, ss, k - 1, id);
  }

  lemma EventsNow(ws: seq<World>, ss: seq<Step>, n: nat, id: nat)
    requires n < |ss| < |ws| && ws[n].j.Valid() && id < |ws[n].j.objs|
    ensures GrantsAt(ws, ss, n, id)
            <==> ss[n].ReplyStep? && ss[n].id == id && ss[n].reply.AuthReply? && Grants(ss[n].reply.answer)
    ensures RefusesAt(ss, n, id) <==> ss[n].ReplyStep? && ss[n].id == id && Refuses(ss[n].reply)
    ensures EndsAt(ws, ss, n, id) <==> EndsProcess(ws[n], ss[n], id)
    ensures forall trigger :: TriggersAt(ws, ss, n, trigger) <==> TriggerOf(ws[n], ss[n]) == trigger
  {
  }

  /**
   In every state of a run the flags of every transaction are its history: it is authorized exactly if it was
   begun so or an answer to Authorize granted it, deauthorized exactly if an answer refused it, inactive
   exactly if one of the listed events ended it, and started and stopped exactly if loop() triggered that.
   */
  lemma {:induction false} FlagsTellHistory(ws: seq<World>, ss: seq<Step>, k: nat, id: nat)
    requires Run(ws, ss) && k < |ws| && id < |ws[k].j.objs|
    ensures FlagsAreHistory(ws, ss, k, id)
    decreases k
  {
    hide Sound, FlagsAreHistory;
    if k == 0 {
      HistoryStarts(ws, ss, id);
    } else if id < |ws[k - 1].j.objs| {
      FlagsTellHistory(ws, ss, k - 1, id);
      HistoryGoesOn(ws, ss, k, id);
    } else {
      HistoryOfNew(ws, ss, k, id);
    }
  }

  lemma HistoryStarts(ws: seq<World>, ss: seq<Step>, id: nat)
    requires |ss| < |ws| && id < |ws[0].j.objs|
    ensures FlagsAreHistory(ws, ss, 0, id)
  {
  }

  // ----- charging -----

  ghost predicate StartedAreAuthorized(j: Journal) {
    forall id :: 0 <= id < |j.objs| && j.objs[id].start.requested ==> j.objs[id].authorized
  }

  lemma StepKeepsAuthorized(w: World, s: Step)
    requires Sound(w.j) && Enabled(w, s) && StartedAreAuthorized(w.j)
    ensures StartedAreAuthorized(Do(w, s).j)
  {
    hide Do, Enabled;
    StepProgress(w, s);
    CreationAdds(w, s);
  }

  lemma {:induction false} RunKeepsAuthorized(ws: seq<World>, ss: seq<Step>, i: nat)
    requires Run(ws, ss) && i < |ws| && StartedAreAuthorized(ws[0].j)
    ensures StartedAreAuthorized(ws[i].j)
    decreases i
  {
    hide Do, Enabled, Sound, StartedAreAuthorized;
    if i > 0 {
      RunKeepsAuthorized(ws, ss, i - 1);
      RunTakes(ws, ss, i - 1);
      StepKeepsAuthorized(ws[i - 1], ss[i - 1]);
    }
  }

  /**
   Charging is permitted exactly for a current transaction that was granted, that nothing has ended, that no
   answer has refused unless energy is free, and that was started and not stopped, unless transactions start when
   the power path is closed.
   */
  lemma ChargingIff(ws: seq<World>, ss: seq<Step>, k: nat, freeVend: bool, startOnPowerPathClosed: bool)
    requires Run(ws, ss) && k < |ws| && StartedAreAuthorized(ws[0].j)
    ensures ws[k].j.Valid()
    ensures PermitsCharge(ws[k].j, freeVend, startOnPowerPathClosed) <==>
              ws[k].j.transaction.Some? &&
              var id := ws[k].j.transaction.value;
              && Granted(ws, ss, k, id) && !Ended(ws, ss, k, id) && (Refused(ws, ss, k, id) ==> freeVend)
              && (startOnPowerPathClosed || (Started(ws, ss, k, id) && !Stopped(ws, ss, k, id)))
  {
    hide Granted, Refused, Ended, Started, Stopped;
    RunIsSound(ws, ss, k);
    RunKeepsAuthorized(ws, ss, k);
    if ws[k].j.transaction.Some? {
      FlagsTellHistory(ws, ss, k, ws[k].j.transaction.value);
      ChargingIsPermittedIff(ws[k].j, freeVend, startOnPowerPathClosed);
    }
  }

  /**
   Charging is permitted only for a transaction that was begun with an authorization or granted by an answer to
   Authorize, in this run or before it.
   */
  lemma ChargingIsAuthorized(ws: seq<World>, ss: seq<Step>, k: nat, freeVend: bool, startOnPowerPathClosed: bool)
    requires Run(ws, ss) && k < |ws| && StartedAreAuthorized(ws[0].j)
    ensures ws[k].j.Valid()
    ensures PermitsCharge(ws[k].j, freeVend, startOnPowerPathClosed) ==>
              ws[k].j.transaction.Some? &&
              var id := ws[k].j.transaction.value;
              || (FromBefore(ws, id) && ws[0].j.objs[id].authorized)
              || (exists n :: 0 <= n < k && GrantsAt(ws, ss, n, id))
  {
    ChargingIff(ws, ss, k, freeVend, startOnPowerPathClosed);
  }

  /** After an answer that refuses it, a transaction never starts, and charging needs FreeVend. */
  lemma RefusedIsForGood(ws: seq<World>, ss: seq<Step>, i: nat, k: nat, id: nat, onPowerPathClosed: bool)
    requires Run(ws, ss) && i < k < |ws| && RefusesAt(ss, i, id)
    ensures k < |ss| ==> TriggerOf(ws[k], ss[k]) != StartTrigger(id)
    ensures ws[k].j.Valid() && (ws[k].j.transaction == Some(id) ==> !PermitsCharge(ws[k].j, false, onPowerPathClosed))
  {
    hide Do;
    RunTakes(ws, ss, i);
    RunIsSound(ws, ss, k);
    TransactionsStay(ws, ss, i, k);
    FlagsTellHistory(ws, ss, k, id);
    if k < |ss| {
      InactiveIsNeverStarted(ws, ss, k, k, id);
    }
  }

  /** After an event that ends it, a transaction never starts, and charging is not permitted for it. */
  lemma EndedIsForGood(ws: seq<World>, ss: seq<Step>, i: nat, k: nat, id: nat, freeVend: bool, onPowerPathClosed: bool)
    requires Run(ws, ss) && i < k < |ws| && EndsAt(ws, ss, i, id)
    ensures k < |ss| ==> TriggerOf(ws[k], ss[k]) != StartTrigger(id)
    ensures ws[k].j.Valid()
    ensures ws[k].j.transaction == Some(id) ==> !PermitsCharge(ws[k].j, freeVend, onPowerPathClosed)
  {
    hide Do, EndsProcess;
    RunIsSound(ws, ss, k);
    TransactionsStay(ws, ss, i, k);
    FlagsTellHistory(ws, ss, k, id);
    if k < |ss| {
      InactiveIsNeverStarted(ws, ss, k, k, id);
    }
  }
}
