/**
 The clock: a base time taken from the server and a millisecond tick counter of 32 bits that wraps around.
 Real time is counted in milliseconds without bound; the tick is its remainder.
 */
module Clocks {
  import opened Wrappers
  import opened Calendar
  import opened Stamps
  import opened Time
  import opened Units
  import DateText

  /** The difference of two `unsigned long` ticks. */
  function Sub32(a: nat, b: nat): (d: nat)
    ensures d < TICKS
  {
    (a - b) % TICKS
  }

  /** Conversion of an `unsigned long` to int. */
  function ToInt32(x: nat): int
    requires x < TICKS
  {
    if x < 0x8000_0000 then x else x - TICKS
  }

  // ----- readings -----

  /** The tick up to which time was counted, and the current time in epoch seconds. */
  datatype Reading = Reading(lastUpdate: nat, current: int)

  /** One call of now(). */
  function Advance(r: Reading, tick: nat): Reading {
    var deltaSecs := Sub32(tick, r.lastUpdate) / 1000;
    Reading((r.lastUpdate + deltaSecs * 1000) % TICKS, r.current + deltaSecs)
  }

  /** The clock was set to base seconds at real time t0 and shows the right time for real time t. */
  ghost predicate Exact(r: Reading, base: int, t0: nat, t: nat)
    requires t0 <= t
  {
    var elapsed := (t - t0) / 1000;
    r == Reading((t0 + elapsed * 1000) % TICKS, base + elapsed)
  }

  /** The last full second up to real time prev. */
  function LastSecond(t0: nat, prev: nat): nat
    requires t0 <= prev
  {
    t0 + (prev - t0) / 1000 * 1000
  }

  /** Less than one turn of the tick counter has passed since the last second that was counted. */
  predicate InTime(t0: nat, prev: nat, t: nat)
    requires t0 <= prev <= t
  {
    t - LastSecond(t0, prev) < TICKS
  }

  lemma SubOfRemainders(a: nat, b: nat)
    requires b <= a
    ensures Sub32(a % TICKS, b % TICKS) == (a - b) % TICKS
  {
  }

  /** Seconds counted since the last full second and before it add up. */
  lemma SecondsAddUp(t0: nat, prev: nat, t: nat)
    requires t0 <= prev <= t
    ensures LastSecond(t0, prev) <= prev
    ensures (t - LastSecond(t0, prev)) / 1000 == (t - t0) / 1000 - (prev - t0) / 1000
  {
    var k0, d := (prev - t0) / 1000, t - LastSecond(t0, prev);
    assert t - t0 == k0 * 1000 + d;
    assert (k0 * 1000 + d) / 1000 == k0 + d / 1000;
  }

  lemma TickAfter(last: nat, secs: nat)
    ensures (last % TICKS + secs * 1000) % TICKS == (last + secs * 1000) % TICKS
  {
  }

  lemma SecondsOfRemainder(d: nat)
    ensures d % TICKS / 1000 == d / 1000 <==> d < TICKS
  {
    if d >= TICKS {
      assert d % TICKS <= d - TICKS;
    }
  }

  /**
   A poll continues to show the exact time if and only if the previous poll was less than one turn of the
   tick counter ago, counted from the last full second.
   */
  lemma PollIsExactIffInTime(r: Reading, base: int, t0: nat, prev: nat, t: nat)
    requires t0 <= prev <= t && Exact(r, base, t0, prev)
    ensures Exact(Advance(r, t % TICKS), base, t0, t) <==> InTime(t0, prev, t)
  {
    hide Sub32;
    var last := LastSecond(t0, prev);
    var d := t - last;
    SecondsAddUp(t0, prev, t);
    SubOfRemainders(t, last);
    var n := d % TICKS / 1000;
    TickAfter(last, n);
    SecondsOfRemainder(d);
    assert Advance(r, t % TICKS) == Reading((last + n * 1000) % TICKS, r.current + n);
    assert n == d / 1000 ==> last + n * 1000 == t0 + (t - t0) / 1000 * 1000;
  }

  /** The polling time before the i-th one. */
  function Previous(t0: nat, ts: seq<nat>, i: nat): nat
    requires i <= |ts|
  {
    if i == 0 then t0 else ts[i - 1]
  }

  ghost predicate InTimeAt(t0: nat, ts: seq<nat>, i: nat)
    requires i < |ts|
  {
    t0 <= Previous(t0, ts, i) <= ts[i] && InTime(t0, Previous(t0, ts, i), ts[i])
  }

  /** Polling times: not before t0, ascending, and each in time after the one before. */
  ghost predicate Schedule(t0: nat, ts: seq<nat>) {
    forall i :: 0 <= i < |ts| ==> InTimeAt(t0, ts, i)
  }

  function PollAll(r: Reading, ts: seq<nat>): Reading {
    if ts == [] then r else Advance(PollAll(r, ts[..|ts| - 1]), ts[|ts| - 1] % TICKS)
  }

  /** The clock does not drift: however often it is polled, it shows base plus the full seconds passed. */
  lemma {:induction false} NoDrift(base: int, t0: nat, ts: seq<nat>)
    requires Schedule(t0, ts)
    ensures t0 <= Previous(t0, ts, |ts|)
    ensures Exact(PollAll(Reading(t0 % TICKS, base), ts), base, t0, Previous(t0, ts, |ts|))
  {
    if ts != [] {
      var init, n := ts[..|ts| - 1], |ts| - 1;
      forall i | 0 <= i < n ensures InTimeAt(t0, init, i) {
        assert InTimeAt(t0, ts, i) && init[i] == ts[i] && Previous(t0, init, i) == Previous(t0, ts, i);
      }
      NoDrift(base, t0, init);
      assert InTimeAt(t0, ts, n) && Previous(t0, init, n) == Previous(t0, ts, n);
      PollIsExactIffInTime(PollAll(Reading(t0 % TICKS, base), init), base, t0, Previous(t0, ts, n), ts[n]);
    }
  }

  /** Between two settings the time never goes back. */
  lemma {:induction false} NeverGoesBack(r: Reading, ts: seq<nat>, i: nat)
    requires i <= |ts|
    ensures PollAll(r, ts[..i]).current <= PollAll(r, ts).current
    decreases |ts|
  {
    if i < |ts| {
      var init := ts[..|ts| - 1];
      assert init[..i] == ts[..i];
      NeverGoesBack(r, init, i);
    } else {
      assert ts[..i] == ts;
    }
  }

  // ----- pre-boot timestamps -----

  /** adjustPrebootTimestamp in epoch seconds: base is the base time, tick the base tick, reading the input. */
  function Adjusted(base: int, tick: nat, reading: int): int
    requires tick < TICKS
  {
    if reading > TruncDiv(ToInt32(tick), 1000) then base else base - (tick / 1000 - reading)
  }

  /** While the base tick fits an int, differences are preserved and the base time is never exceeded. */
  lemma AdjustmentShifts(base: int, tick: nat, a: int, b: int)
    requires tick < 0x8000_0000 && a <= tick / 1000 && b <= tick / 1000
    ensures Adjusted(base, tick, a) - Adjusted(base, tick, b) == a - b
    ensures Adjusted(base, tick, a) <= base
  {
  }

  /**
   A reading that the unset clock took at real time t, adjusted after the clock was set at real time t0, is
   less than a second away from the true instant (in milliseconds).
   */
  lemma AdjustmentIsWithinOneSecond(base: int, t0: nat, t: nat, reading: Reading)
    requires t <= t0 < 0x8000_0000 && Exact(reading, 0, 0, t)
    ensures var trueInstant := base * 1000 - (t0 - t);
            -1000 < Adjusted(base, t0, reading.current) * 1000 - trueInstant < 1000
  {
    assert reading.current == t / 1000;
  }

  /**
   The cast of the tick to int comes before the division. For a base tick of 2^31 ms and more, the result
   is therefore the base time itself instead of the shifted reading; this says exactly for which readings.
   */
  lemma AdjustmentIsShiftIff(base: int, tick: nat, reading: int)
    requires tick < TICKS
    ensures Adjusted(base, tick, reading) == base - (tick / 1000 - reading) <==>
              reading == tick / 1000 || reading <= TruncDiv(ToInt32(tick), 1000)
  {
  }

  lemma LateBaseTickLosesReading(base: int)
    ensures Adjusted(base, 0x8000_0000, 1) == base && base - (0x8000_0000 / 1000 - 1) < base - 2147000
  {
  }

  // ----- the object -----

  /** The default constructor of a timestamp; these properties determine its value. */
  method DefaultStamp() returns (t: Stamp)
    ensures InEpoch(t) && Normalized(t) && Seconds(t) == 0
  {
    EpochStart();
    t := Stamp(1970, 0, 0, 0, 0, 0);
    FirstSecondOfYear(t, 0);
  }

  lemma SecondsInEpoch(t: Stamp)
    requires InEpoch(t)
    ensures 0 <= Seconds(t) <= 2145916800
  {
    MonthStartInEpoch(1970, t.year, t.month);
    MonthLength(t.year, t.month);
    EpochStart();
  }

  class Clock {
    var mocppBasetime: Stamp
    var systemBasetime: nat
    var lastUpdate: nat
    var currentTime: Stamp

    ghost predicate Valid()
      reads this
    {
      && InEpoch(mocppBasetime) && ValidStamp(currentTime)
      && systemBasetime < TICKS && lastUpdate < TICKS
    }

    ghost function State(): Reading
      requires Valid()
      reads this
    {
      Reading(lastUpdate, Seconds(currentTime))
    }

    constructor ()
      ensures Valid() && State() == Reading(0, 0) && Seconds(mocppBasetime) == 0 && systemBasetime == 0
    {
      var t := DefaultStamp();
      mocppBasetime, systemBasetime, lastUpdate, currentTime := t, 0, 0, t;
    }

    method SetTime(s: string, tick: nat) returns (success: bool)
      requires Valid() && tick < TICKS
      modifies this
      ensures Valid() && (success <==> DateText.Parse(s).Some?)
      ensures success ==>
                && mocppBasetime == currentTime == DateText.Parse(s).value
                && systemBasetime == lastUpdate == tick
      ensures !success ==> unchanged(this)
    {
      var default := DefaultStamp();
      var timestamp := new Timestamp(default);
      success := timestamp.SetTime(s);
      if !success {
        return;
      }
      DateText.PrintParsed(s);
      systemBasetime := tick;
      mocppBasetime := timestamp.Value();
      currentTime := mocppBasetime;
      lastUpdate := systemBasetime;
    }

    /** The current time, normalized. Its year has to fit the year field. */
    method Now(tick: nat) returns (now: Stamp)
      requires Valid() && tick < TICKS && ResultFits(currentTime, Sub32(tick, lastUpdate) / 1000)
      modifies this`currentTime, this`lastUpdate
      ensures Valid() && now == currentTime && Normalized(now)
      ensures State() == Advance(old(State()), tick)
    {
      var delta := Sub32(tick, lastUpdate);
      var deltaSecs := delta / 1000;
      currentTime := PlusSeconds(currentTime, deltaSecs);
      lastUpdate := (lastUpdate + deltaSecs * 1000) % TICKS;
      now := currentTime;
    }

    method AdjustPrebootTimestamp(t: Stamp) returns (adjusted: Stamp)
      requires Valid() && InEpoch(t)
      ensures ValidStamp(adjusted)
      ensures Seconds(adjusted) == Adjusted(Seconds(mocppBasetime), systemBasetime, Seconds(t))
    {
      var epoch := DefaultStamp();
      SecondsInEpoch(t);
      var systemtimeIn := Difference(t, epoch);
      if systemtimeIn > TruncDiv(ToInt32(systemBasetime), 1000) {
        return mocppBasetime;
      }
      var secs: int32 := systemBasetime / 1000 - systemtimeIn;
      EpochFits(mocppBasetime, -secs);
      adjusted := PlusSeconds(mocppBasetime, -secs);
    }
  }
}
