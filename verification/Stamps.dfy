/**
 The values of timestamps, the seconds they stand for, and their comparison. The field types have the
 widths of the source.
 */
module Stamps {
  import opened Calendar

  type int16 = x: int | -0x8000 <= x < 0x8000
  type int32 = x: int | -0x8000_0000 <= x < 0x8000_0000

  /** Integer division and remainder as in C++, for a positive divisor. */
  function TruncDiv(a: int, b: int): int
    requires b > 0
  {
    if a >= 0 then a / b else -(-a / b)
  }

  function TruncMod(a: int, b: int): int
    requires b > 0
  {
    if a >= 0 then a % b else -(-a % b)
  }

  /** The value of a timestamp. */
  datatype Stamp = Stamp(year: int16, month: int16, day: int16, hour: int32, minute: int32, second: int32)

  /** A calendar date and a time of day; second 60 is a leap second. */
  predicate ValidStamp(t: Stamp) {
    && 0 <= t.month < 12 && 0 <= t.day < NoDays(t.month, t.year)
    && 0 <= t.hour < 24 && 0 <= t.minute < 60 && 0 <= t.second <= 60
  }

  predicate Normalized(t: Stamp) { ValidStamp(t) && t.second < 60 }

  /** The years that the parser accepts. */
  predicate InEpoch(t: Stamp) { ValidStamp(t) && 1970 <= t.year < 2038 }

  /** Timestamps whose differences are in range: the parsed ones, and those of the first day after them. */
  predicate Countable(t: Stamp) {
    ValidStamp(t) && 1970 <= t.year && (t.year < 2038 || (t.year == 2038 && t.month == 0 && t.day == 0))
  }

  function Days(t: Stamp): int
    requires 0 <= t.month < 12
  {
    MonthStart(t.year, t.month) + t.day
  }

  function TimeOfDay(t: Stamp): int { t.hour * 3600 + t.minute * 60 + t.second }

  /** Seconds since 1970-01-01T00:00:00. */
  function Seconds(t: Stamp): int
    requires 0 <= t.month < 12
  {
    Days(t) * 86400 + TimeOfDay(t)
  }

  // ----- comparison -----

  /** operator< */
  predicate Less(a: Stamp, b: Stamp) {
    if a.year != b.year then a.year < b.year
    else if a.month != b.month then a.month < b.month
    else if a.day != b.day then a.day < b.day
    else if a.hour != b.hour then a.hour < b.hour
    else if a.minute != b.minute then a.minute < b.minute
    else a.second < b.second
  }

  lemma DaysDecide(a: Stamp, b: Stamp)
    requires ValidStamp(a) && ValidStamp(b)
    ensures Days(a) < Days(b) <==>
              (a.year < b.year || (a.year == b.year && (a.month < b.month || (a.month == b.month && a.day < b.day))))
    ensures Days(a) == Days(b) ==> a.year == b.year && a.month == b.month && a.day == b.day
  {
    if a.year < b.year || (a.year == b.year && a.month < b.month) {
      LaterMonth(a.year, a.month, b.year, b.month);
    } else if b.year < a.year || (a.year == b.year && b.month < a.month) {
      LaterMonth(b.year, b.month, a.year, a.month);
    }
  }

  /**
   The comparison is exactly that of the seconds, except that a leap second counts as earlier than the
   first second of the next minute, although both are the same second of the epoch.
   */
  lemma LessIsFewerSeconds(a: Stamp, b: Stamp)
    requires ValidStamp(a) && ValidStamp(b)
    ensures Less(a, b) <==> Seconds(a) < Seconds(b) || (Seconds(a) == Seconds(b) && a.second == 60 && b.second != 60)
  {
    DaysDecide(a, b);
    DaysDecide(b, a);
    TimeOfDayDecides(a, b);
    TimeOfDayDecides(b, a);
  }

  lemma TimeOfDayDecides(a: Stamp, b: Stamp)
    requires ValidStamp(a) && ValidStamp(b)
    ensures 0 <= TimeOfDay(a) <= 86400 && 0 <= TimeOfDay(b) <= 86400
    ensures TimeOfDay(a) == 86400 ==> a.second == 60 && a.hour == 23 && a.minute == 59
    ensures var earlier := a.minute < b.minute || (a.minute == b.minute && a.second < b.second);
            (a.hour < b.hour || (a.hour == b.hour && earlier)) <==>
              TimeOfDay(a) < TimeOfDay(b) || (TimeOfDay(a) == TimeOfDay(b) && a.second == 60 && b.second != 60)
  {
  }

  /** A normalized timestamp is determined by its seconds. */
  lemma SecondsAreInjective(a: Stamp, b: Stamp)
    requires Normalized(a) && Normalized(b) && Seconds(a) == Seconds(b)
    ensures a == b
  {
    LessIsFewerSeconds(a, b);
    LessIsFewerSeconds(b, a);
  }

  lemma FirstSecondOfYear(t: Stamp, days: int)
    requires YearStart(t.year) == days
    requires t.month == 0 && t.day == 0 && t.hour == 0 && t.minute == 0 && t.second == 0
    ensures Normalized(t) && Seconds(t) == days * 86400
  {
    MonthLength(t.year, t.month);
  }
}
