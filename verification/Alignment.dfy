/**
 Clock-aligned measurements: the next instant at midnight or a multiple of the interval after midnight.
 Instants are epoch seconds.
 */
module Alignment {

  const DAY: int := 86400

  /** The next aligned time after now, as the metering connector computes it. */
  function NextAligned(now: int, interval: int): int
    requires interval >= 1
  {
    var s := now % DAY;
    var midnight := now - s;
    if s + interval >= DAY then midnight + DAY else midnight + (s + interval) / interval * interval
  }

  /** Midnight, or a multiple of the interval after the midnight of the same day. */
  predicate IsAligned(x: int, interval: int)
    requires interval >= 1
  {
    x % DAY % interval == 0
  }

  /** The multiple of interval that comes next after s. */
  lemma NextMultiple(s: int, interval: int)
    requires s >= 0 && interval >= 1
    ensures (s + interval) / interval == s / interval + 1
    ensures s < (s / interval + 1) * interval <= s + interval
    ensures (s / interval + 1) * interval % interval == 0
  {
    var q := s / interval;
    assert s == q * interval + s % interval;
    assert (q + 1) * interval == q * interval + interval;
    QuotientUnique(s + interval, interval, q + 1, s % interval);
    QuotientUnique((q + 1) * interval, interval, q + 1, 0);
  }

  lemma SmallMultiple(k: int, d: int)
    requires d >= 1 && -d < k * d < d
    ensures k == 0
  {
    assert k >= 1 ==> k * d >= d;
    assert k <= -1 ==> k * d <= -d;
  }

  lemma QuotientUnique(x: int, d: int, q: int, r: int)
    requires d >= 1 && x == q * d + r && 0 <= r < d
    ensures x / d == q && x % d == r
  {
    var q', r' := x / d, x % d;
    Division(x, d);
    assert (q - q') * d == q * d - q' * d == r' - r;
    SmallMultiple(q - q', d);
  }

  lemma Division(x: int, d: int)
    requires d >= 1
    ensures x == x / d * d + x % d && 0 <= x % d < d
  {
  }

  /** A multiple that is greater than s is not less than the next one. */
  lemma NoMultipleBetween(s: int, x: int, interval: int)
    requires 0 <= s < x && interval >= 1 && x % interval == 0
    ensures (s / interval + 1) * interval <= x
  {
    var k, q := x / interval, s / interval;
    Division(x, interval);
    Division(s, interval);
    MultiplesAscend(k, q, interval);
    MultiplesAscend(q + 1, k, interval);
  }

  /** Two different multiples are at least one interval apart. */
  lemma MultipleGap(a: int, b: int, interval: int)
    requires 0 <= a < b && interval >= 1 && a % interval == 0 && b % interval == 0
    ensures a + interval <= b
  {
    NoMultipleBetween(a, b, interval);
    Division(a, interval);
    assert (a / interval + 1) * interval == a / interval * interval + interval;
  }

  lemma MultiplesAscend(a: int, b: int, d: int)
    requires d >= 1
    ensures a <= b ==> a * d <= b * d
  {
    assert a <= b ==> (b - a) * d >= 0;
    assert (b - a) * d == b * d - a * d;
  }

  /** The next time lies in (now, now + interval] and is aligned. */
  lemma NextIsAlignedSoon(now: int, interval: int)
    requires interval >= 1
    ensures now < NextAligned(now, interval) <= now + interval
    ensures NextAligned(now, interval) % 86400 % interval == 0
  {
    var s := now % DAY;
    NextMultiple(s, interval);
    if s + interval >= DAY {
      MidnightPlus(now, DAY, 0);
      QuotientUnique(0, interval, 0, 0);
    } else {
      MidnightPlus(now, 0, (s / interval + 1) * interval);
    }
  }

  /** It is not later than the next midnight. */
  lemma NextIsSameDay(now: int, interval: int)
    requires interval >= 1
    ensures NextAligned(now, interval) <= now - now % DAY + DAY
  {
    NextMultiple(now % DAY, interval);
  }

  lemma MidnightPlus(now: int, days: int, offset: int)
    requires (days == 0 || days == DAY) && 0 <= offset < DAY
    ensures (now - now % DAY + days + offset) % DAY == offset
  {
    var q := now / DAY;
    assert now - now % DAY == q * DAY;
    QuotientUnique(now - now % DAY + days + offset, DAY, if days == 0 then q else q + 1, offset);
  }

  /** No aligned instant of the same day lies between now and the next aligned time. */
  ghost predicate NothingSkipped(now: int, interval: int)
    requires interval >= 1
  {
    forall x :: now < x < NextAligned(now, interval) ==> !IsAligned(x, interval)
  }

  /**
   The next aligned time is the earliest one exactly if the day has no further multiple of the interval
   after now that is followed by less than an interval until midnight.
   */
  lemma NextIsEarliestIff(now: int, interval: int)
    requires interval >= 1
    ensures var s := now % DAY;
            NothingSkipped(now, interval) <==> (s + interval < DAY || (s / interval + 1) * interval >= DAY)
  {
    var s := now % DAY;
    var midnight := now - s;
    var m := (s / interval + 1) * interval;
    NextMultiple(s, interval);
    if s + interval < DAY || m >= DAY {
      forall x | now < x < NextAligned(now, interval) ensures !IsAligned(x, interval) {
        MidnightPlus(now, 0, x - midnight);
        if IsAligned(x, interval) {
          NoMultipleBetween(s, x - midnight, interval);
        }
      }
    } else {
      MidnightPlus(now, 0, m);
      assert now < midnight + m < NextAligned(now, interval) && IsAligned(midnight + m, interval);
    }
  }

  /** If the interval divides the day, the next aligned time is always the earliest one. */
  lemma DivisorSkipsNothing(now: int, interval: int)
    requires interval >= 1 && DAY % interval == 0
    ensures NothingSkipped(now, interval)
  {
    var s := now % DAY;
    var m := (s / interval + 1) * interval;
    NextIsEarliestIff(now, interval);
    NextMultiple(s, interval);
    if m < DAY {
      MultipleGap(m, DAY, interval);
    }
  }
}
