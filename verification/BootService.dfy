/**
 The boot service: it sends the BootNotification again and again until the server accepts it, and then opens
 the other queues.
 */
module BootServices {
  import opened Wrappers
  import opened Requests
  import opened RequestRing
  import opened RequestProtocol
  import opened RequestQueues
  import opened Units

  datatype RegistrationStatus = Undefined | AcceptedStatus | Pending | Rejected

  const BOOT_INTERVAL_DEFAULT: nat := 60

  /** Whether the next BootNotification is due. Ticks and the interval in ms are 32 bit numbers. */
  predicate Due(status: RegistrationStatus, intervalS: nat, lastBootNotification: nat, tick: nat) {
    status != AcceptedStatus && (tick - lastBootNotification) % TICKS >= (intervalS * 1000) % TICKS
  }

  function BootNotification(id: nat, intervalS: nat, tick: nat): Request {
    Request(id, tick, (intervalS * 1000) % TICKS, false, false)
  }

  /** It times out when the interval has passed that is set when it is sent. */
  lemma BootNotificationTimesOutIff(id: nat, intervalS: nat, tick: nat, elapsed: nat)
    requires tick < TICKS && elapsed < TICKS && 0 < intervalS * 1000 < TICKS
    ensures BootNotification(id, intervalS, tick).id == id
    ensures IsTimeoutExceeded(BootNotification(id, intervalS, tick), (tick + elapsed) % TICKS)
            <==> elapsed >= intervalS * 1000
  {
    TimesOutIff(BootNotification(id, intervalS, tick), elapsed);
  }

  // ----- when a BootNotification is sent -----

  /** What the boot service remembers. lastBootNotification is a tick. */
  datatype Timer = Timer(status: RegistrationStatus, intervalS: nat, lastBootNotification: nat)

  /** Calls of the boot service, with the real time in milliseconds. */
  datatype Call =
    | LoopCall(time: nat)
    | NotifyCall(time: nat, status: RegistrationStatus)
    | IntervalCall(time: nat, intervalS: nat)

  /** loop() sends a BootNotification. */
  predicate Sends(t: Timer, c: Call) {
    c.LoopCall? && Due(t.status, t.intervalS, t.lastBootNotification, c.time % TICKS)
  }

  function Next(t: Timer, c: Call): Timer {
    match c
    case LoopCall(time) => if Sends(t, c) then t.(lastBootNotification := time % TICKS) else t
    case NotifyCall(time, status) => t.(status := status, lastBootNotification := time % TICKS)
    case IntervalCall(time, intervalS) =>
      Timer(t.status, if intervalS == 0 then 60 else intervalS, time % TICKS)
  }

  /** The timer was set at the real time since, which is not after now. */
  ghost predicate SetBefore(t: Timer, since: nat, now: nat) { since <= now && t.lastBootNotification == since % TICKS }

  /** ts are the states of a run with calls cs at times that do not go back. */
  ghost predicate TimedRun(ts: seq<Timer>, cs: seq<Call>) {
    && |ts| == |cs| + 1
    && (forall i, n :: 0 <= i < |cs| && n == i + 1 ==> ts[n] == Next(ts[i], cs[i]))
    && (forall i, n :: 0 <= i < n < |cs| ==> cs[i].time <= cs[n].time)
  }

  /** In real milliseconds: one is sent exactly if there is no acceptance and the interval has passed. */
  lemma SendsIff(t: Timer, since: nat, time: nat)
    requires SetBefore(t, since, time) && time - since < TICKS && t.intervalS * 1000 < TICKS
    ensures Sends(t, LoopCall(time)) <==> t.status != AcceptedStatus && time - since >= t.intervalS * 1000
  {
  }

  /** Even after longer gaps, it is never sent before the interval has passed. */
  lemma SentAfterInterval(t: Timer, since: nat, time: nat)
    requires SetBefore(t, since, time) && t.intervalS * 1000 < TICKS && Sends(t, LoopCall(time))
    ensures t.status != AcceptedStatus && time - since >= t.intervalS * 1000
  {
  }

  /** Between two BootNotifications passes at least the interval that is set when the second one is sent. */
  lemma NotificationsAreSpaced(ts: seq<Timer>, cs: seq<Call>, i: nat, k: nat)
    requires TimedRun(ts, cs) && i < k < |cs| && Sends(ts[i], cs[i]) && Sends(ts[k], cs[k])
    requires ts[k].intervalS * 1000 < TICKS
    ensures cs[k].time - cs[i].time >= ts[k].intervalS * 1000
  {
    var since := LatestSetting(ts, cs, i, k);
    SentAfterInterval(ts[k], since, cs[k].time);
  }

  lemma {:induction false} LatestSetting(ts: seq<Timer>, cs: seq<Call>, i: nat, k: nat) returns (since: nat)
    requires TimedRun(ts, cs) && i < k < |ts| && Sends(ts[i], cs[i])
    ensures cs[i].time <= since <= cs[k - 1].time && ts[k].lastBootNotification == since % TICKS
    decreases k
  {
    hide Sends;
    assert ts[k] == Next(ts[k - 1], cs[k - 1]);
    if k == i + 1 || cs[k - 1].NotifyCall? || cs[k - 1].IntervalCall? || Sends(ts[k - 1], cs[k - 1]) {
      since := cs[k - 1].time;
    } else {
      since := LatestSetting(ts, cs, i, k - 1);
    }
  }

  class BootService {
    const preBoot: PreBootQueue
    var status: RegistrationStatus
    var intervalS: nat
    var lastBootNotification: nat
    var activatedPostBootCommunication: bool

    ghost predicate Valid()
      reads this, preBoot, preBoot.queue, preBoot.queue.requests
    {
      && preBoot.queue.Valid() && preBoot.queue.requests.Length == CACHE_MAXSIZE
      && activatedPostBootCommunication == preBoot.activatedPostBootCommunication
    }

    ghost function Clock(): Timer
      reads this
    {
      Timer(status, intervalS, lastBootNotification)
    }

    constructor (preBoot: PreBootQueue)
      requires preBoot.queue.Valid() && preBoot.queue.requests.Length == CACHE_MAXSIZE
      requires !preBoot.activatedPostBootCommunication
      ensures Valid() && this.preBoot == preBoot && status == Undefined && intervalS == BOOT_INTERVAL_DEFAULT
    {
      this.preBoot := preBoot;
      status, intervalS, lastBootNotification := Undefined, BOOT_INTERVAL_DEFAULT, 0x7FFF_FFFF;
      activatedPostBootCommunication := false;
    }

    /**
     loop(): the steps BootLoopStep and, if the BootNotification is due, SendPreBootStep of the protocol,
     whatever the other queues hold.
     */
    method Loop(ticks: nat -> nat, tick: nat, id: nat, ghost p: Protocol)
      returns (events: seq<Event>, ghost q: Protocol)
      requires Valid()
      requires p.preBootQueue == preBoot.queue.Contents() && p.activated == activatedPostBootCommunication
      requires p.accepted == (status == AcceptedStatus)
      modifies this`lastBootNotification, this`activatedPostBootCommunication
      modifies preBoot, preBoot.queue, preBoot.queue.requests
      ensures forall time: nat :: time % TICKS == tick ==> Clock() == Next(old(Clock()), LoopCall(time))
      ensures Valid() && q.preBootQueue == preBoot.queue.Contents() && q.activated == activatedPostBootCommunication
      ensures var due := Due(status, intervalS, old(lastBootNotification), tick);
              var first := Do(p, BootLoopStep(ticks));
              var second := Do(first.0, SendPreBootStep(BootNotification(id, intervalS, tick)));
              && (!due ==> (q, events) == first && lastBootNotification == old(lastBootNotification))
              && (due ==> (q, events) == (second.0, first.1 + second.1) && lastBootNotification == tick)
    {
      hide TimeoutsOf, Kept, Expired, Verdicts, Push;
      var expired := preBoot.queue.Loop(ticks);
      events := Report(expired);
      q := Do(p, BootLoopStep(ticks)).0;
      if !activatedPostBootCommunication && status == AcceptedStatus {
        preBoot.activatedPostBootCommunication := true;
        activatedPostBootCommunication := true;
      }
      if status == AcceptedStatus {
        return;
      }
      if (tick - lastBootNotification) % TICKS < (intervalS * 1000) % TICKS {
        return;
      }
      var sent := SendPreBoot(BootNotification(id, intervalS, tick), q);
      q := Do(q, SendPreBootStep(BootNotification(id, intervalS, tick))).0;
      events := events + sent;
      lastBootNotification := tick;
    }

    method SendPreBoot(r: Request, ghost p: Protocol) returns (events: seq<Event>)
      requires Valid() && p.preBootQueue == preBoot.queue.Contents()
      modifies preBoot.queue, preBoot.queue.requests
      ensures Valid()
      ensures preBoot.queue.Contents() == Do(p, SendPreBootStep(r)).0.preBootQueue
      ensures events == Do(p, SendPreBootStep(r)).1
    {
      var expired := preBoot.queue.PushRequestBack(r);
      events := if expired != [] then [TimeoutOf(expired[0]), Queued(r.id)] else [Queued(r.id)];
    }

    /** The answer to a BootNotification came in: the step NotifyStep of the protocol. */
    method NotifyRegistrationStatus(status: RegistrationStatus, tick: nat, ghost p: Protocol)
      returns (events: seq<Event>, ghost q: Protocol)
      requires p.accepted == (this.status == AcceptedStatus)
      modifies this`status, this`lastBootNotification
      ensures this.status == status && lastBootNotification == tick
      ensures forall time: nat :: time % TICKS == tick ==> Clock() == Next(old(Clock()), NotifyCall(time, status))
      ensures (q, events) == Do(p, NotifyStep(status == AcceptedStatus))
      ensures q.accepted == (this.status == AcceptedStatus)
    {
      this.status, lastBootNotification := status, tick;
      events := if status == AcceptedStatus then [BootAccepted] else [];
      q := p.(accepted := status == AcceptedStatus);
    }

    method SetRetryInterval(intervalS: nat, tick: nat)
      modifies this`intervalS, this`lastBootNotification
      ensures forall time: nat :: time % TICKS == tick ==> Clock() == Next(old(Clock()), IntervalCall(time, intervalS))
      ensures this.intervalS == (if intervalS == 0 then BOOT_INTERVAL_DEFAULT else intervalS)
      ensures lastBootNotification == tick
    {
      this.intervalS := if intervalS == 0 then BOOT_INTERVAL_DEFAULT else intervalS;
      lastBootNotification := tick;
    }
  }
}
