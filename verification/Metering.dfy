/**
 The metering connector: clock-aligned measurements, and the queue of values to be sent.
 */
module Metering {
  import opened Wrappers
  import opened Calendar
  import opened Stamps
  import opened Time
  import opened MeterQueue
  import opened Selection
  import opened Units
  import Alignment
  import Clocks

  lemma Year2010()
    ensures YearStart(2010) == 14610
  {
  }

  /** 2010-01-01T00:00:00: MIN_TIME, and the midnight that aligned measurements count from. */
  method MidnightBase() returns (t: Stamp)
    ensures InEpoch(t) && Normalized(t) && Seconds(t) == MIN_TIME
  {
    Year2010();
    t := Stamp(2010, 0, 0, 0, 0, 0);
    FirstSecondOfYear(t, 14610);
  }

  /** The order of normalized timestamps, as the order of their seconds. */
  lemma SecondsOrder(a: Stamp, b: Stamp)
    requires Normalized(a) && Normalized(b)
    ensures Less(a, b) <==> Seconds(a) < Seconds(b)
    ensures Seconds(a) <= Seconds(b) ==> a.year <= b.year
    ensures Seconds(a) == Seconds(b) ==> a == b
  {
    LessIsFewerSeconds(a, b);
    LessIsFewerSeconds(b, a);
  }

  lemma RemainderOfDays(n: int)
    requires n >= MIN_TIME
    ensures TruncMod(n - MIN_TIME, 3600 * 24) == n % Alignment.DAY
  {
  }

  lemma NegativeBeforeEpoch(t: Stamp)
    requires Normalized(t) && t.year < 1970
    ensures Seconds(t) < 0
  {
    LaterMonth(t.year, t.month, 1970, 0);
    EpochStart();
    assert Days(t) <= -1;
  }

  lemma StaysInEpoch(t: Stamp, now: Stamp)
    requires Normalized(t) && Normalized(now) && InEpoch(now) && 0 <= Seconds(t) <= Seconds(now)
    ensures InEpoch(t)
  {
    SecondsOrder(t, now);
    if t.year < 1970 {
      NegativeBeforeEpoch(t);
    }
  }

  /** 2038-01-01T00:00:00 in seconds. */
  const EPOCH_END: int := 24837 * 86400

  lemma Year2038()
    ensures YearStart(2038) == 24837
  {
  }

  lemma EpochEnd(t: Stamp)
    requires t == Stamp(2038, 0, 0, 0, 0, 0)
    ensures Normalized(t) && Seconds(t) == EPOCH_END
  {
    Year2038();
    FirstSecondOfYear(t, 24837);
  }

  /** Times up to the end of the epoch can be subtracted; before it, the year is one of the epoch. */
  lemma EpochBySeconds(t: Stamp)
    requires Normalized(t)
    ensures 0 <= Seconds(t) <= EPOCH_END ==> Countable(t)
    ensures InEpoch(t) <==> 0 <= Seconds(t) < EPOCH_END
  {
    hide Seconds;
    var end := Stamp(2038, 0, 0, 0, 0, 0);
    EpochEnd(end);
    SecondsOrder(t, end);
    SecondsOrder(end, t);
    if t.year < 1970 {
      NegativeBeforeEpoch(t);
    } else if t.year < 2038 {
      SecondsOfCountable(t);
      BeforeEnd(t, end);
    }
  }

  lemma BeforeEnd(t: Stamp, end: Stamp)
    requires Normalized(t) && Normalized(end) && t.year < end.year
    ensures Seconds(t) < Seconds(end)
  {
    SecondsOrder(t, end);
  }

  /** The next aligned time after a time of the epoch is at most its end. */
  lemma NextAlignedInRange(now: int, interval: int)
    requires interval >= 1 && 0 <= now < EPOCH_END
    ensures 0 <= Alignment.NextAligned(now, interval) <= EPOCH_END
  {
    Alignment.NextIsAlignedSoon(now, interval);
    Alignment.NextIsSameDay(now, interval);
  }

  lemma NextAlignedIsCountable(now: Stamp, interval: int, next: Stamp)
    requires InEpoch(now) && Normalized(now) && interval >= 1
    requires Normalized(next) && Seconds(next) == Alignment.NextAligned(Seconds(now), interval)
    ensures Countable(next)
  {
    hide Seconds, Alignment.NextAligned;
    EpochBySeconds(now);
    NextAlignedInRange(Seconds(now), interval);
    EpochBySeconds(next);
  }

  lemma MidnightIsNotBeforeBase(n: int)
    requires n >= MIN_TIME
    ensures n - n % Alignment.DAY >= MIN_TIME
  {
  }

  lemma SameQuotient(a: int, interval: int)
    requires a >= 0 && interval >= 1
    ensures TruncDiv(a, interval) == a / interval && 0 <= a / interval * interval <= a
  {
    Alignment.Division(a, interval);
    Alignment.MultiplesAscend(a / interval, -1, interval);
  }

  /** The seconds since midnight plus the interval are an `int`. */
  ghost predicate SumFits(now: Stamp, interval: int32)
    requires ValidStamp(now)
  {
    Seconds(now) % Alignment.DAY + interval < 0x8000_0000
  }

  /** The waiting time in ticks, as an `unsigned long`. */
  function RetryPeriod(attempts: nat, retryInterval: int): nat {
    var interval: nat := if retryInterval > 0 then retryInterval else 0;
    attempts * interval * 1000 % TICKS
  }

  /** In real milliseconds: a retry is due exactly when the attempts made, each with the interval, have passed. */
  lemma RetryIsDueIff(v: MeterValue, retryInterval: int, elapsed: nat)
    requires v.attemptTime < TICKS && elapsed < TICKS
    requires v.attemptNr * (if retryInterval > 0 then retryInterval else 0) * 1000 < TICKS
    ensures MeteringConnector.FrontIsDue(Some(v), retryInterval, (v.attemptTime + elapsed) % TICKS)
            <==> elapsed >= v.attemptNr * (if retryInterval > 0 then retryInterval else 0) * 1000
  {
  }

  class MeteringConnector {
    var nextAlignedTime: Stamp
    var meterData: seq<MeterValue>
    var meterDataFront: Option<MeterValue>

    function Queue(): Meters
      reads this
    {
      Meters(meterDataFront, meterData)
    }

    constructor (epoch: Stamp)
      ensures nextAlignedTime == epoch && Queue() == Meters(None, [])
    {
      nextAlignedTime, meterData, meterDataFront := epoch, [], None;
    }

    /** Append a measurement; the oldest one gives way if the queue is full. */
    method Push(opNr: nat, txNr: int)
      modifies this`meterData
      ensures Queue() == Take(old(Queue()), MeterValue(opNr, txNr, 0, 0))
    {
      if |meterData| >= METERVALUES_CACHE_MAXSIZE {
        meterData := meterData[1..];
      }
      meterData := meterData + [MeterValue(opNr, txNr, 0, 0)];
    }

    static method SinceBase(now: Stamp) returns (intervall: int32)
      requires InEpoch(now)
      ensures intervall == Seconds(now) - MIN_TIME
    {
      var midnightBase := MidnightBase();
      intervall := Difference(now, midnightBase);
    }

    /** The midnight before now, and the seconds since then. */
    static method LastMidnight(now: Stamp) returns (midnight: Stamp, intervall: int32)
      requires InEpoch(now) && Normalized(now) && Seconds(now) >= MIN_TIME
      ensures intervall == Seconds(now) % Alignment.DAY
      ensures InEpoch(midnight) && Normalized(midnight) && Seconds(midnight) == Seconds(now) - intervall
    {
      intervall := SinceBase(now);
      RemainderOfDays(Seconds(now));
      intervall := TruncMod(intervall, 3600 * 24);
      EpochFits(now, -intervall);
      midnight := PlusSeconds(now, -intervall);
      MidnightIsNotBeforeBase(Seconds(now));
      StaysInEpoch(midnight, now);
    }

    /** The new schedule: midnight plus a multiple of the interval, or tomorrow's midnight. */
    method Reschedule(now: Stamp, interval: int32)
      requires InEpoch(now) && Normalized(now) && Seconds(now) >= MIN_TIME && interval >= 1 && SumFits(now, interval)
      modifies this`nextAlignedTime
      ensures Normalized(nextAlignedTime) && Countable(nextAlignedTime)
      ensures Seconds(nextAlignedTime) == Alignment.NextAligned(Seconds(now), interval)
    {
      var midnight, intervall := LastMidnight(now);
      intervall := intervall + interval;
      if intervall >= 3600 * 24 {
        EpochFits(midnight, 3600 * 24);
        nextAlignedTime := PlusSeconds(midnight, 3600 * 24);
      } else {
        SameQuotient(intervall, interval);
        intervall := TruncDiv(intervall, interval);
        EpochFits(midnight, intervall * interval);
        nextAlignedTime := PlusSeconds(midnight, intervall * interval);
      }
      NextAlignedIsCountable(now, interval, nextAlignedTime);
    }

    /**
     The clock-aligned part of loop(). A measurement is queued if the aligned time passed (or was adjusted)
     by at most 60 seconds; then, and only then, the next time is computed. Again it can be subtracted from the
     next call's time.
     */
    method LoopClockAligned(now: Stamp, interval: int32, hasSample: bool, txNr: int, nextOp: nat) returns (nextOp': nat)
      requires InEpoch(now) && Normalized(now) && Countable(nextAlignedTime) && SumFits(now, interval)
      modifies this`nextAlignedTime, this`meterData
      ensures Countable(nextAlignedTime)
      ensures var dt := old(Seconds(nextAlignedTime)) - Seconds(now);
              var elapsed := interval >= 1 && Seconds(now) >= MIN_TIME && (dt < 0 || dt > interval);
              && (elapsed ==> Normalized(nextAlignedTime))
              && (elapsed ==> Seconds(nextAlignedTime) == Alignment.NextAligned(Seconds(now), interval))
              && (!elapsed ==> nextAlignedTime == old(nextAlignedTime))
              && (if elapsed && -60 <= dt <= 60 && hasSample
                  then Queue() == Take(old(Queue()), MeterValue(nextOp, txNr, 0, 0)) && nextOp' == nextOp + 1
                  else Queue() == old(Queue()) && nextOp' == nextOp)
    {
      nextOp' := nextOp;
      var minTime := MidnightBase();
      SecondsOrder(minTime, now);
      if interval >= 1 && (Less(minTime, now) || minTime == now) {
        var dt := Difference(nextAlignedTime, now);
        if dt < 0 || dt > interval {
          if -60 <= dt <= 60 {
            if hasSample {
              Push(nextOp, txNr);
              nextOp' := nextOp + 1;
            }
          }
          Reschedule(now, interval);
        }
      }
    }

    method GetFrontRequestOpNr() returns (opNr: nat)
      modifies this`meterData, this`meterDataFront
      ensures Queue() == Poll(old(Queue())) && opNr == FrontOp(Queue())
    {
      if meterDataFront.None? && meterData != [] {
        meterDataFront := Some(meterData[0]);
        meterData := meterData[1..];
      }
      opNr := if meterDataFront.Some? then meterDataFront.value.opNr else NO_OPERATION;
    }

    /** silent: the transaction of the value in front is silent. */
    method FetchFrontRequest(maxAttempts: int, retryInterval: int, tick: nat, silent: bool) returns (sends: bool)
      modifies this`meterDataFront
      ensures var due := FrontIsDue(old(meterDataFront), retryInterval, tick);
              (Queue(), sends) == Fetch(old(Queue()), MeterFetch(maxAttempts, due, tick, silent))
    {
      if meterDataFront.None? {
        return false;
      }
      var v := meterDataFront.value;
      if v.attemptNr >= maxAttempts {
        meterDataFront := None;
        return false;
      }
      if !FrontIsDue(meterDataFront, retryInterval, tick) {
        return false;
      }
      meterDataFront := Some(v.(attemptNr := v.attemptNr + 1, attemptTime := tick));
      if silent {
        meterDataFront := None;
        return false;
      }
      return true;
    }

    /** The retry period is over; tick arithmetic is that of `unsigned long`. */
    static predicate FrontIsDue(front: Option<MeterValue>, retryInterval: int, tick: nat) {
      front.Some? ==> Clocks.Sub32(tick, front.value.attemptTime) >= RetryPeriod(front.value.attemptNr, retryInterval)
    }

    method OnConfirmation()
      modifies this`meterDataFront
      ensures Queue() == Confirm(old(Queue()))
    {
      meterDataFront := None;
    }
  }
}
