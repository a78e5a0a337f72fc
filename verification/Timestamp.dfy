/**
 Timestamps: field-by-field arithmetic that refines counting seconds. Every assignment to a field or a
 counter is checked against its width, so the proofs also show that nothing overflows.
 */
module Time {
  import opened Wrappers
  import opened Calendar
  import opened Stamps
  import DateText

  /** Carrying whole units keeps the sum and leaves a remainder of 0 to unit - 1. */
  lemma TruncCarry(x: int, unit: int)
    requires unit == 60 || unit == 24
    ensures TruncDiv(x, unit) * unit + TruncMod(x, unit) == x
    ensures -unit < TruncMod(x, unit) < unit
    ensures x >= 0 ==> 0 <= TruncDiv(x, unit) <= x / unit && TruncMod(x, unit) >= 0
    ensures x < 0 ==> x / unit <= TruncDiv(x, unit) <= 0
  {
  }

  /** A day whose year fits the year field. */
  ghost predicate DayFits(day: int) { YearStart(-0x8000) <= day < YearStart(0x8000) }

  /** Adding the seconds to the timestamp leads to such a day. */
  ghost predicate ResultFits(t: Stamp, secs: int)
    requires 0 <= t.month < 12
  {
    DayFits((Seconds(t) + secs) / 86400)
  }

  /** The years of the epoch, and what int seconds can reach from there, are far from the limits. */
  lemma EpochFits(t: Stamp, secs: int)
    requires Countable(t) && -0x8000_0000 <= secs < 0x8000_0000
    ensures ResultFits(t, secs)
  {
    hide YearStart, Seconds;
    FarLimits();
    SecondsOfCountable(t);
  }

  lemma FarLimits()
    ensures YearStart(-0x8000) <= -24856 && 49694 < YearStart(0x8000)
  {
  }

  /** Years ascend with their first days. */
  lemma EarlierYear(a: int, b: int)
    requires YearStart(a) < YearStart(b)
    ensures a < b
  {
    hide YearStart;
    if b <= a {
      YearsAddUp(b, a);
    }
  }

  class Timestamp {
    var year: int16
    var month: int16
    var day: int16
    var hour: int32
    var minute: int32
    var second: int32

    function Value(): Stamp
      reads this
    {
      Stamp(year, month, day, hour, minute, second)
    }

    constructor (t: Stamp)
      ensures Value() == t
    {
      year, month, day, hour, minute, second := t.year, t.month, t.day, t.hour, t.minute, t.second;
    }

    /** setTime: the fields change only if the string is accepted. */
    method SetTime(s: string) returns (success: bool)
      modifies this
      ensures success <==> DateText.Parse(s).Some?
      ensures Value() == if success then DateText.Parse(s).value else old(Value())
    {
      if |s| < 19 || !DateText.HasDateShape(s) {
        return false;
      }
      var y := DateText.Number(s, 0, 4);
      var mo := DateText.Number(s, 5, 2) - 1;
      var d := DateText.Number(s, 8, 2) - 1;
      var h := DateText.Number(s, 11, 2);
      var mi := DateText.Number(s, 14, 2);
      var sec := DateText.Number(s, 17, 2);
      if !DateText.FractionOk(s) {
        return false;
      }
      if y < 1970 || y >= 2038 || mo < 0 || mo >= 12 || d < 0 || d >= NoDays(mo, y) ||
         h < 0 || h >= 24 || mi < 0 || mi >= 60 || sec < 0 || sec > 60
      {
        return false;
      }
      year, month, day, hour, minute, second := y, mo, d, h, mi, sec;
      return true;
    }

    /** toJsonString: the text and its terminating zero are written if the buffer has room for them. */
    method ToJsonString(buf: array<char>) returns (success: bool)
      requires ValidStamp(Value()) && year >= 0
      modifies buf
      ensures success <==> buf.Length >= DateText.JSONDATE_LENGTH + 1
      ensures success ==> buf[..DateText.JSONDATE_LENGTH] == old(DateText.Print(Value()))
      ensures success ==> buf[DateText.JSONDATE_LENGTH] == '\0'
      ensures success ==> buf[DateText.JSONDATE_LENGTH + 1..] == old(buf[DateText.JSONDATE_LENGTH + 1..])
      ensures !success ==> buf[..] == old(buf[..])
    {
      if buf.Length < DateText.JSONDATE_LENGTH + 1 {
        return false;
      }
      var text := DateText.Print(Value());
      for i := 0 to |text|
        invariant buf[..i] == text[..i]
        invariant buf[DateText.JSONDATE_LENGTH + 1..] == old(buf[DateText.JSONDATE_LENGTH + 1..])
      {
        buf[i] := text[i];
      }
      buf[DateText.JSONDATE_LENGTH] := '\0';
      return true;
    }

    /** Bring an overflowing second field back to 0..59 and carry into the minute field. */
    method CarrySeconds()
      requires 0 <= minute < 60
      modifies this`minute, this`second
      ensures 0 <= second < 60 && minute * 60 + second == old(minute * 60 + second)
      ensures -35791396 <= minute <= 35791453
    {
      TruncCarry(second, 60);
      minute := minute + TruncDiv(second, 60);
      second := TruncMod(second, 60);
      if second < 0 {
        minute := minute - 1;
        second := second + 60;
      }
    }

    method CarryMinutes()
      requires 0 <= hour < 24 && -35791396 <= minute <= 35791453
      modifies this`hour, this`minute
      ensures 0 <= minute < 60 && hour * 60 + minute == old(hour * 60 + minute)
      ensures -596525 <= hour <= 596548
    {
      TruncCarry(minute, 60);
      hour := hour + TruncDiv(minute, 60);
      minute := TruncMod(minute, 60);
      if minute < 0 {
        hour := hour - 1;
        minute := minute + 60;
      }
    }

    method CarryHours()
      requires 0 <= day < 31 && -596525 <= hour <= 596548
      modifies this`day, this`hour
      ensures 0 <= hour < 24 && day * 24 + hour == old(day * 24 + hour)
      ensures -24857 <= day <= 24887
    {
      TruncCarry(hour, 24);
      day := day + TruncDiv(hour, 24);
      hour := TruncMod(hour, 24);
      if hour < 0 {
        day := day - 1;
        hour := hour + 24;
      }
    }

    /** One step forward: the days of this month are taken off. */
    method NextMonth()
      requires 0 <= month < 12 && NoDays(month, year) <= day && (month == 11 ==> year < 0x7FFF)
      modifies this`year, this`month, this`day
      ensures 0 <= month < 12 && MonthStart(year, month) + day == old(MonthStart(year, month) + day)
      ensures old(year) <= year && 0 <= day <= old(day) - 28
    {
      MonthLength(year, month);
      NextJanuary(year);
      day := day - NoDays(month, year);
      month := month + 1;
      if month >= 12 {
        month := month - 12;
        year := year + 1;
      }
    }

    /** First loop of operator+=: skip whole months forward. */
    method CarryDaysForward()
      requires 0 <= month < 12 && DayFits(MonthStart(year, month) + day)
      modifies this`year, this`month, this`day
      ensures 0 <= month < 12 && MonthStart(year, month) + day == old(MonthStart(year, month) + day)
      ensures day < NoDays(month, year) && (old(day) < 0 ==> day == old(day) && year == old(year))
      ensures old(day) >= 0 ==> day >= 0
    {
      hide YearStart;
      ghost var y, d0, d := year, day, MonthStart(year, month) + day;
      MonthLength(year, month);
      while day >= NoDays(month, year)
        invariant 0 <= month < 12 && MonthStart(year, month) + day == d
        invariant if d0 < 0 then day == d0 && year == y else day >= 0
        decreases day
      {
        YearAheadFits(year, month, day);
        NextMonth();
        MonthLength(year, month);
      }
    }

    /** One step back: the days of the previous month are added. */
    method PreviousMonth()
      requires 0 <= month < 12 && -24857 <= day < 0 && (month == 0 ==> -0x8000 < year)
      modifies this`year, this`month, this`day
      ensures 0 <= month < 12 && MonthStart(year, month) + day == old(MonthStart(year, month) + day)
      ensures year == (if old(month) == 0 then old(year) - 1 else old(year))
      ensures old(day) + 28 <= day <= old(day) + 31 && day < NoDays(month, year)
    {
      NextJanuary(year - 1);
      month := month - 1;
      if month < 0 {
        month := month + 12;
        year := year - 1;
      }
      MonthLength(year, month);
      day := day + NoDays(month, year);
    }

    /** Second loop of operator+=: go back whole months. */
    method CarryDaysBack()
      requires 0 <= month < 12 && -24857 <= day < NoDays(month, year) && DayFits(MonthStart(year, month) + day)
      modifies this`year, this`month, this`day
      ensures 0 <= month < 12 && MonthStart(year, month) + day == old(MonthStart(year, month) + day)
      ensures 0 <= day < NoDays(month, year)
      ensures old(day) >= 0 ==> unchanged(this)
    {
      hide YearStart;
      ghost var y, m0, d0, d := year, month, day, MonthStart(year, month) + day;
      while day < 0
        invariant 0 <= month < 12 && MonthStart(year, month) + day == d
        invariant -24857 <= day < NoDays(month, year)
        invariant d0 >= 0 ==> day == d0 && month == m0 && year == y
        decreases -day
      {
        YearBehindFits(year, month, day);
        PreviousMonth();
      }
    }

    /** The day field overflows or underflows by whole months. */
    method CarryDays()
      requires 0 <= month < 12 && -24857 <= day <= 24887 && DayFits(MonthStart(year, month) + day)
      modifies this`year, this`month, this`day
      ensures 0 <= month < 12 && 0 <= day < NoDays(month, year)
      ensures MonthStart(year, month) + day == old(MonthStart(year, month) + day)
    {
      CarryDaysForward();
      CarryDaysBack();
    }

    /** The hour field overflows or underflows by whole days. */
    method CarryHoursAndDays()
      requires 0 <= month < 12 && 0 <= day < 31 && -596525 <= hour <= 596548
      requires DayFits(((MonthStart(year, month) + day) * 24 + hour) / 24)
      modifies this`year, this`month, this`day, this`hour
      ensures 0 <= month < 12 && 0 <= day < NoDays(month, year) && 0 <= hour < 24
      ensures (MonthStart(year, month) + day) * 24 + hour == old((MonthStart(year, month) + day) * 24 + hour)
    {
      CarryHours();
      CarryDays();
    }

    /**
     operator+= for any number of seconds whose sum with the second field fits that field, as long as the result
     has a year that fits the year field. The early returns included, the epoch seconds grow by exactly secs and
     the result is a normalized timestamp.
     */
    method AddSeconds(secs: int32)
      requires ValidStamp(Value()) && ResultFits(Value(), secs)
      requires -0x8000_0000 <= second + secs < 0x8000_0000
      modifies this
      ensures Normalized(Value()) && Seconds(Value()) == old(Seconds(Value())) + secs
    {
      hide YearStart, DayFits;
      MonthLength(year, month);
      ghost var total := Seconds(Value()) + secs;
      second := second + secs;
      if 0 <= second < 60 {
        return;
      }
      CarrySeconds();
      if 0 <= minute < 60 {
        return;
      }
      CarryMinutes();
      if 0 <= hour < 24 {
        return;
      }
      DayOfTotal(MonthStart(year, month) + day, hour, minute, second, total);
      CarryHoursAndDays();
    }
  }

  /** A month further on, as long as the day counted from here does not fit the month. */
  lemma YearAheadFits(year: int, month: int, day: int)
    requires 0 <= month < 12 && NoDays(month, year) <= day && DayFits(MonthStart(year, month) + day)
    ensures month == 11 ==> year < 0x7FFF
  {
    if month == 11 {
      MonthLength(year, 11);
      NextJanuary(year);
      JanuaryStart(year + 1);
      EarlierYear(year + 1, 0x8000);
    }
  }

  lemma YearBehindFits(year: int, month: int, day: int)
    requires 0 <= month < 12 && day < 0 && DayFits(MonthStart(year, month) + day)
    ensures month == 0 ==> -0x8000 < year
  {
    if month == 0 {
      JanuaryStart(year);
      EarlierYear(-0x8000, year);
    }
  }

  lemma JanuaryStart(year: int)
    ensures MonthStart(year, 0) == YearStart(year)
  {
  }

  lemma DayOfTotal(days: int, hours: int, minutes: int, seconds: int, total: int)
    requires 0 <= minutes < 60 && 0 <= seconds < 60 && total == days * 86400 + hours * 3600 + minutes * 60 + seconds
    ensures (days * 24 + hours) / 24 == total / 86400
  {
  }

  /** operator+: a copy is changed in place. */
  method PlusSeconds(lhs: Stamp, secs: int32) returns (res: Stamp)
    requires ValidStamp(lhs) && ResultFits(lhs, secs)
    requires -0x8000_0000 <= lhs.second + secs < 0x8000_0000
    ensures Normalized(res) && Seconds(res) == Seconds(lhs) + secs
  {
    var copy := new Timestamp(lhs);
    copy.AddSeconds(secs);
    res := copy.Value();
  }

  // ----- difference -----

  /** Is the first of month (iy, im) before the first of month (y, m)? */
  predicate MonthBefore(iy: int, im: int, y: int, m: int) { y > iy || (y == iy && m > im) }

  /** Days from the first of January of year base to (iy, im), but not beyond (y, m). */
  ghost function CountedDays(base: int, iy: int, im: int, y: int, m: int): int
    requires 0 <= im <= 12 && 0 <= m < 12
  {
    (if MonthBefore(iy, im, y, m) then MonthStart(iy, im) else MonthStart(y, m)) - YearStart(base)
  }

  /** The whole epoch has 24837 days; its last month starts on day 24806. */
  lemma MonthStartInEpoch(base: int, y: int, m: int)
    requires 1970 <= base <= y && 0 <= m < 12 && (y < 2038 || (y == 2038 && m == 0))
    ensures 0 <= YearStart(base) <= MonthStart(y, m) <= 24837
    ensures y < 2038 ==> MonthStart(y, m) <= 24806
  {
    EpochStart();
    Anchors();
    YearsAddUp(1970, base);
    YearsAddUp(base, y);
    JanuaryStart(y);
    if y < 2038 {
      YearsAddUp(y + 1, 2038);
      NextJanuary(y);
      MonthsAscend(0, m, IsLeap(y));
      MonthsAscend(m, 11, IsLeap(y));
    }
  }

  lemma SecondsOfCountable(t: Stamp)
    requires Countable(t)
    ensures 0 <= Seconds(t) <= 2146003200
  {
    MonthStartInEpoch(1970, t.year, t.month);
    MonthLength(t.year, t.month);
    EpochStart();
  }

  /** Up to the first day of 2038 a day count from any January fits the int16_t counter. */
  lemma CountedDaysFit(base: int, iy: int, im: int, y: int, m: int)
    requires 1970 <= base <= iy && 1970 <= base <= y && 0 <= im <= 12 && 0 <= m < 12
    requires y < 2038 || (y == 2038 && m == 0)
    ensures 0 <= CountedDays(base, iy, im, y, m) <= 24837
  {
    MonthStartInEpoch(base, y, m);
    if MonthBefore(iy, im, y, m) {
      if im < 12 {
        MonthStartInEpoch(base, iy, im);
      } else {
        NextJanuary(iy);
        MonthStartInEpoch(base, iy + 1, 0);
      }
    }
  }

  lemma CountOneMonth(base: int, iy: int, im: int, y: int, m: int)
    requires 0 <= im < 12 && 0 <= m < 12
    ensures CountedDays(base, iy, im + 1, y, m) ==
            CountedDays(base, iy, im, y, m) + if MonthBefore(iy, im, y, m) then NoDays(im, iy) else 0
  {
    MonthLength(iy, im);
    if y > iy && im == 11 {
      NextJanuary(iy);
    }
  }

  lemma CountNextYear(base: int, iy: int, y: int, m: int)
    requires 0 <= m < 12
    ensures CountedDays(base, iy, 12, y, m) == CountedDays(base, iy + 1, 0, y, m)
  {
    NextJanuary(iy);
  }

  /** The inner loop of operator-: the months of one year. */
  method CountYear(base: int, iy: int16, lhs: Stamp, rhs: Stamp, lhsIn: int16, rhsIn: int16)
    returns (lhsDays: int16, rhsDays: int16)
    requires Countable(lhs) && Countable(rhs)
    requires 1970 <= base <= iy <= 2038 && base <= lhs.year && base <= rhs.year
    requires lhsIn == lhs.day + CountedDays(base, iy, 0, lhs.year, lhs.month)
    requires rhsIn == rhs.day + CountedDays(base, iy, 0, rhs.year, rhs.month)
    ensures lhsDays == lhs.day + CountedDays(base, iy, 12, lhs.year, lhs.month)
    ensures rhsDays == rhs.day + CountedDays(base, iy, 12, rhs.year, rhs.month)
  {
    lhsDays, rhsDays := lhsIn, rhsIn;
    MonthLength(lhs.year, lhs.month);
    MonthLength(rhs.year, rhs.month);
    for im := 0 to 12
      invariant lhsDays == lhs.day + CountedDays(base, iy, im, lhs.year, lhs.month)
      invariant rhsDays == rhs.day + CountedDays(base, iy, im, rhs.year, rhs.month)
    {
      CountOneMonth(base, iy, im, lhs.year, lhs.month);
      CountOneMonth(base, iy, im, rhs.year, rhs.month);
      CountedDaysFit(base, iy, im + 1, lhs.year, lhs.month);
      CountedDaysFit(base, iy, im + 1, rhs.year, rhs.month);
      if lhs.year > iy || (lhs.year == iy && lhs.month > im) {
        lhsDays := lhsDays + NoDays(im, iy);
      }
      if rhs.year > iy || (rhs.year == iy && rhs.month > im) {
        rhsDays := rhsDays + NoDays(im, iy);
      }
    }
  }

  /**
   operator-: the exact difference in seconds for all timestamps of 1970 to 2037, and of the first day of 2038.
   The day counters stay within int16_t and the sums within int.
   */
  method Difference(lhs: Stamp, rhs: Stamp) returns (dt: int32)
    requires Countable(lhs) && Countable(rhs)
    ensures dt == Seconds(lhs) - Seconds(rhs)
  {
    var yearBase, yearEnd := rhs.year, lhs.year;
    if lhs.year <= rhs.year {
      yearBase, yearEnd := lhs.year, rhs.year;
    }
    var lhsDays, rhsDays := lhs.day, rhs.day;
    var iy: int16 := yearBase;
    while iy <= yearEnd
      invariant yearBase <= iy <= yearEnd + 1
      invariant lhsDays == lhs.day + CountedDays(yearBase, iy, 0, lhs.year, lhs.month)
      invariant rhsDays == rhs.day + CountedDays(yearBase, iy, 0, rhs.year, rhs.month)
    {
      lhsDays, rhsDays := CountYear(yearBase, iy, lhs, rhs, lhsDays, rhsDays);
      CountNextYear(yearBase, iy, lhs.year, lhs.month);
      CountNextYear(yearBase, iy, rhs.year, rhs.month);
      iy := iy + 1;
    }
    MonthStartInEpoch(yearBase, lhs.year, lhs.month);
    MonthStartInEpoch(yearBase, rhs.year, rhs.month);
    MonthLength(lhs.year, lhs.month);
    MonthLength(rhs.year, rhs.month);
    assert lhsDays - rhsDays == Days(lhs) - Days(rhs);
    dt := CombineDifference(lhsDays - rhsDays, lhs, rhs);
  }

  /** The final sum of operator-, one checked int operation after the other. */
  method CombineDifference(days: int32, lhs: Stamp, rhs: Stamp) returns (dt: int32)
    requires ValidStamp(lhs) && ValidStamp(rhs) && -24837 <= days <= 24837
    ensures dt == days * 86400 + TimeOfDay(lhs) - TimeOfDay(rhs)
  {
    var s1: int32 := days * (24 * 3600);
    var s2: int32 := (lhs.hour - rhs.hour) * 3600;
    var s3: int32 := s1 + s2;
    var s4: int32 := (lhs.minute - rhs.minute) * 60;
    var s5: int32 := s3 + s4;
    var s6: int32 := s5 + lhs.second;
    dt := s6 - rhs.second;
  }

  /** The largest difference between two timestamps of the epoch just fits an int. */
  lemma LargestDifference(a: Stamp, b: Stamp)
    requires InEpoch(a) && InEpoch(b)
    ensures -2145916800 <= Seconds(a) - Seconds(b) <= 2145916800 < 0x8000_0000
  {
    MonthStartInEpoch(1970, a.year, a.month);
    MonthStartInEpoch(1970, b.year, b.month);
    MonthLength(a.year, a.month);
    MonthLength(b.year, b.month);
    EpochStart();
  }
}
