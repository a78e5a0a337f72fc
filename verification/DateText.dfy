/**
 Printing and parsing of timestamps such as 2020-10-01T20:53:32Z (build without milliseconds).
 */
module DateText {
  import opened Wrappers
  import opened Calendar
  import opened Stamps
  import opened Digits

  const JSONDATE_LENGTH: nat := 20

  function DigitChar(x: int): (c: char)
    requires 0 <= x < 10
    ensures IsDigit(c)
  {
    (x + '0' as int) as char
  }

  /** The number that a character stands for, computed for any character. */
  function Value(c: char): int { c as int - '0' as int }

  function Digits4(x: int): (s: string)
    requires x >= 0
    ensures |s| == 4
  {
    [DigitChar(x / 1000 % 10), DigitChar(x / 100 % 10), DigitChar(x / 10 % 10), DigitChar(x % 10)]
  }

  function Digits2(x: int): (s: string)
    requires x >= 0
    ensures |s| == 2
  {
    [DigitChar(x / 10 % 10), DigitChar(x % 10)]
  }

  /** toJsonString, without the terminating zero. */
  function Print(t: Stamp): (s: string)
    requires ValidStamp(t) && t.year >= 0
    ensures |s| == JSONDATE_LENGTH
  {
    MonthLength(t.year, t.month);
    Digits4(t.year) + "-" + Digits2(t.month + 1) + "-" + Digits2(t.day + 1) + "T" +
    Digits2(t.hour) + ":" + Digits2(t.minute) + ":" + Digits2(t.second) + "Z"
  }

  /** A character of a C string; beyond the end there is the terminating zero. */
  function At(s: string, i: nat): char { if i < |s| then s[i] else '\0' }

  predicate HasDateShape(s: string)
    requires |s| >= 19
  {
    && IsDigit(s[0]) && IsDigit(s[1]) && IsDigit(s[2]) && IsDigit(s[3]) && s[4] == '-'
    && IsDigit(s[5]) && IsDigit(s[6]) && s[7] == '-'
    && IsDigit(s[8]) && IsDigit(s[9]) && s[10] == 'T'
    && IsDigit(s[11]) && IsDigit(s[12]) && s[13] == ':'
    && IsDigit(s[14]) && IsDigit(s[15]) && s[16] == ':'
    && IsDigit(s[17]) && IsDigit(s[18])
  }

  /** The decimal number in s[from..from + length]. */
  function Number(s: string, from: nat, length: nat): int
    requires from + length <= |s|
  {
    if length == 0 then 0 else Number(s, from, length - 1) * 10 + Value(s[from + length - 1])
  }

  /** An optional fraction: accepted if at least one of its three characters is a digit and it is below 1000. */
  predicate FractionOk(s: string) {
    At(s, 19) == '.' ==>
      (IsDigit(At(s, 20)) || IsDigit(At(s, 21)) || IsDigit(At(s, 22))) &&
      0 <= Value(At(s, 20)) * 100 + Value(At(s, 21)) * 10 + Value(At(s, 22)) < 1000
  }

  /** setTime: the timestamp that a string is read as, or None. */
  function Parse(s: string): Option<Stamp> {
    if |s| < 19 || !HasDateShape(s) || !FractionOk(s) then None
    else
      var year, month, day := Number(s, 0, 4), Number(s, 5, 2) - 1, Number(s, 8, 2) - 1;
      var hour, minute, second := Number(s, 11, 2), Number(s, 14, 2), Number(s, 17, 2);
      if 1970 <= year < 2038 && 0 <= month < 12 && 0 <= day < NoDays(month, year) &&
         0 <= hour < 24 && 0 <= minute < 60 && 0 <= second <= 60
      then Some(Stamp(year, month, day, hour, minute, second))
      else None
  }

  // ----- round trips -----

  lemma Number2(s: string, from: nat, x: int)
    requires from + 2 <= |s|
    ensures Number(s, from, 2) == Value(s[from]) * 10 + Value(s[from + 1])
    ensures 0 <= x < 100 && s[from..from + 2] == Digits2(x) ==> Number(s, from, 2) == x
    ensures IsDigit(s[from]) && IsDigit(s[from + 1]) ==>
              0 <= Number(s, from, 2) < 100 && s[from..from + 2] == Digits2(Number(s, from, 2))
  {
    assert Number(s, from, 1) == Number(s, from, 0) * 10 + Value(s[from]);
    assert s[from..from + 2] == [s[from], s[from + 1]];
  }

  lemma SplitOff(x: int, k: int)
    requires x >= 0 && (k == 1 || k == 10 || k == 100)
    ensures x / k == x / (k * 10) * 10 + x / k % 10
  {
    assert x / 1 == x;
    assert k == 10 ==> x / 100 == x / 10 / 10;
    assert k == 100 ==> x / 1000 == x / 100 / 10;
  }

  lemma Number4(s: string, from: nat)
    requires from + 4 <= |s|
    ensures Number(s, from, 4)
            == Value(s[from]) * 1000 + Value(s[from + 1]) * 100 + Value(s[from + 2]) * 10 + Value(s[from + 3])
  {
    assert Number(s, from, 1) == Number(s, from, 0) * 10 + Value(s[from]);
    assert Number(s, from, 2) == Number(s, from, 1) * 10 + Value(s[from + 1]);
    assert Number(s, from, 3) == Number(s, from, 2) * 10 + Value(s[from + 2]);
  }

  lemma Number4OfDigits(s: string, from: nat, x: int)
    requires from + 4 <= |s| && 0 <= x < 10000 && s[from..from + 4] == Digits4(x)
    ensures Number(s, from, 4) == x
  {
    Number4(s, from);
    SplitOff(x, 1);
    SplitOff(x, 10);
    SplitOff(x, 100);
    assert x / 1000 % 10 == x / 1000;
    assert s[from..from + 4] == [s[from], s[from + 1], s[from + 2], s[from + 3]];
  }

  lemma Number4Printed(s: string, from: nat)
    requires from + 4 <= |s|
    requires IsDigit(s[from]) && IsDigit(s[from + 1]) && IsDigit(s[from + 2]) && IsDigit(s[from + 3])
    ensures 0 <= Number(s, from, 4) < 10000 && s[from..from + 4] == Digits4(Number(s, from, 4))
  {
    Number4(s, from);
    DigitsOf4(Value(s[from]), Value(s[from + 1]), Value(s[from + 2]), Value(s[from + 3]));
    assert s[from..from + 4] == [s[from], s[from + 1], s[from + 2], s[from + 3]];
  }

  lemma DigitsOf4(a: int, b: int, c: int, d: int)
    requires 0 <= a < 10 && 0 <= b < 10 && 0 <= c < 10 && 0 <= d < 10
    ensures var x := a * 1000 + b * 100 + c * 10 + d;
            x / 1000 % 10 == a && x / 100 % 10 == b && x / 10 % 10 == c && x % 10 == d
  {
    var x := a * 1000 + b * 100 + c * 10 + d;
    assert x / 10 == a * 100 + b * 10 + c;
    assert x / 100 == a * 10 + b;
    assert x / 1000 == a;
    LastDigit(a * 100 + b * 10 + c, d);
    LastDigit(a * 10 + b, c);
    LastDigit(a, b);
    LastDigit(0, a);
  }

  lemma LastDigit(q: int, d: int)
    requires 0 <= d < 10
    ensures (q * 10 + d) % 10 == d
  {
  }

  /** The parts of a printed timestamp. */
  lemma PrintedParts(t: Stamp)
    requires ValidStamp(t) && t.year >= 0
    ensures var s := Print(t);
            && s[0..4] == Digits4(t.year) && s[5..7] == Digits2(t.month + 1) && s[8..10] == Digits2(t.day + 1)
            && s[11..13] == Digits2(t.hour) && s[14..16] == Digits2(t.minute) && s[17..19] == Digits2(t.second)
    ensures HasDateShape(Print(t)) && Print(t)[19] == 'Z'
  {
    hide Digits4, Digits2, IsDigit;
    MonthLength(t.year, t.month);
    var s := Print(t);
    Joined(Digits4(t.year), Digits2(t.month + 1), Digits2(t.day + 1),
           Digits2(t.hour), Digits2(t.minute), Digits2(t.second), s);
    FourDigits(t.year, s, 0);
    TwoDigits(t.month + 1, s, 5);
    TwoDigits(t.day + 1, s, 8);
    TwoDigits(t.hour, s, 11);
    TwoDigits(t.minute, s, 14);
    TwoDigits(t.second, s, 17);
  }

  lemma Joined(y: string, m: string, d: string, h: string, n: string, c: string, s: string)
    requires |y| == 4 && |m| == |d| == |h| == |n| == |c| == 2
    requires s == y + "-" + m + "-" + d + "T" + h + ":" + n + ":" + c + "Z"
    ensures |s| == 20 && s[0..4] == y && s[5..7] == m && s[8..10] == d
    ensures s[11..13] == h && s[14..16] == n && s[17..19] == c
    ensures s[4] == '-' && s[7] == '-' && s[10] == 'T' && s[13] == ':' && s[16] == ':' && s[19] == 'Z'
  {
  }

  lemma FourDigits(x: int, s: string, from: nat)
    requires x >= 0 && from + 4 <= |s| && s[from..from + 4] == Digits4(x)
    ensures IsDigit(s[from]) && IsDigit(s[from + 1]) && IsDigit(s[from + 2]) && IsDigit(s[from + 3])
  {
    assert s[from..from + 4] == [s[from], s[from + 1], s[from + 2], s[from + 3]];
  }

  lemma TwoDigits(x: int, s: string, from: nat)
    requires x >= 0 && from + 2 <= |s| && s[from..from + 2] == Digits2(x)
    ensures IsDigit(s[from]) && IsDigit(s[from + 1])
  {
    assert s[from..from + 2] == [s[from], s[from + 1]];
  }

  /** What was printed is read back, for every timestamp of the years 1970 to 2037, leap seconds included. */
  lemma ParsePrinted(t: Stamp)
    requires InEpoch(t)
    ensures Parse(Print(t)) == Some(t)
  {
    hide Print, Number, HasDateShape, Digits4, Digits2;
    var s := Print(t);
    MonthLength(t.year, t.month);
    PrintedParts(t);
    Number4OfDigits(s, 0, t.year);
    Number2(s, 5, t.month + 1);
    Number2(s, 8, t.day + 1);
    Number2(s, 11, t.hour);
    Number2(s, 14, t.minute);
    Number2(s, 17, t.second);
  }

  lemma ParsedParts(s: string)
    requires Parse(s).Some?
    ensures |s| >= 19 && InEpoch(Parse(s).value) && HasDateShape(s)
    ensures var t := Parse(s).value;
            && s[0..4] == Digits4(t.year) && s[5..7] == Digits2(t.month + 1) && s[8..10] == Digits2(t.day + 1)
            && s[11..13] == Digits2(t.hour) && s[14..16] == Digits2(t.minute) && s[17..19] == Digits2(t.second)
  {
    hide Number, Digits4, Digits2, FractionOk;
    Number4Printed(s, 0);
    Number2(s, 5, 0);
    Number2(s, 8, 0);
    Number2(s, 11, 0);
    Number2(s, 14, 0);
    Number2(s, 17, 0);
  }

  /** What is accepted is a valid timestamp, and printing it gives back the first 19 characters. */
  lemma PrintParsed(s: string)
    requires Parse(s).Some?
    ensures |s| >= 19 && InEpoch(Parse(s).value) && Print(Parse(s).value)[..19] == s[..19]
  {
    ParsedParts(s);
    PrintedParts(Parse(s).value);
    PartsMakeWhole(Print(Parse(s).value), s);
  }

  lemma PartsMakeWhole(p: string, s: string)
    requires |p| >= 19 && |s| >= 19 && HasDateShape(s) && HasDateShape(p)
    requires p[0..4] == s[0..4] && p[5..7] == s[5..7] && p[8..10] == s[8..10]
    requires p[11..13] == s[11..13] && p[14..16] == s[14..16] && p[17..19] == s[17..19]
    ensures p[..19] == s[..19]
  {
    assert p[..19] == p[0..4] + "-" + p[5..7] + "-" + p[8..10] + "T" + p[11..13] + ":" + p[14..16] + ":" + p[17..19];
    assert s[..19] == s[0..4] + "-" + s[5..7] + "-" + s[8..10] + "T" + s[11..13] + ":" + s[14..16] + ":" + s[17..19];
  }

  /**
   A string is accepted exactly if it starts with the printed form of a timestamp of the epoch, and what follows,
   if it begins with a point, goes on with three characters, one of them a digit, that make a number below 1000
   when each character counts as its distance from 0. Beyond the end of the string there are zeros.
   */
  lemma AcceptedIffPrinted(s: string)
    ensures Parse(s).Some? <==>
              && |s| >= 19
              && (|s| > 19 && s[19] == '.' ==>
                    var a, b, c := At(s, 20), At(s, 21), At(s, 22);
                    && ('0' <= a <= '9' || '0' <= b <= '9' || '0' <= c <= '9')
                    && 0 <= (a as int - 48) * 100 + (b as int - 48) * 10 + (c as int - 48) < 1000)
              && exists t: Stamp :: InEpoch(t) && t.year >= 0 && Print(t)[..19] == s[..19]
  {
    FractionMeaning(s);
    if Parse(s).Some? {
      PrintParsed(s);
    }
    if |s| >= 19 && FractionOk(s) && exists t: Stamp :: InEpoch(t) && t.year >= 0 && Print(t)[..19] == s[..19] {
      var t: Stamp :| InEpoch(t) && t.year >= 0 && Print(t)[..19] == s[..19];
      ParsePrinted(t);
      SameStartSameParse(Print(t), s);
    }
  }

  lemma FractionMeaning(s: string)
    ensures FractionOk(s) <==>
              (|s| > 19 && s[19] == '.' ==>
                 var a, b, c := At(s, 20), At(s, 21), At(s, 22);
                 && ('0' <= a <= '9' || '0' <= b <= '9' || '0' <= c <= '9')
                 && 0 <= (a as int - 48) * 100 + (b as int - 48) * 10 + (c as int - 48) < 1000)
  {
  }

  /** A fraction of three digits is accepted and leaves the timestamp as it is. */
  lemma FractionIsIgnored(t: Stamp, a: char, b: char, c: char, rest: string)
    requires InEpoch(t) && '0' <= a <= '9' && '0' <= b <= '9' && '0' <= c <= '9'
    ensures Parse(Print(t)[..19] + ['.', a, b, c] + rest) == Some(t)
  {
    hide Print, Parse;
    var s := Print(t)[..19] + ['.', a, b, c] + rest;
    ParsePrinted(t);
    assert s[..19] == Print(t)[..19] && At(s, 20) == a && At(s, 21) == b && At(s, 22) == c;
    FractionMeaning(s);
    SameStartSameParse(Print(t), s);
  }

  /** The layout of the text, at an example: the day in the order year, month, day, counted from 1. */
  lemma PrintedExample()
    ensures ValidStamp(Stamp(2020, 9, 0, 20, 53, 32))
    ensures Print(Stamp(2020, 9, 0, 20, 53, 32)) == "2020-10-01T20:53:32Z"
  {
  }

  lemma SameStartSameParse(p: string, s: string)
    requires |p| >= 19 && |s| >= 19 && p[..19] == s[..19] && Parse(p).Some? && FractionOk(s)
    ensures Parse(s) == Parse(p)
  {
    forall i | 0 <= i < 19 ensures p[i] == s[i] {
      assert p[i] == p[..19][i] == s[..19][i] == s[i];
    }
    SameNumber(p, s, 0, 4);
    SameNumber(p, s, 5, 2);
    SameNumber(p, s, 8, 2);
    SameNumber(p, s, 11, 2);
    SameNumber(p, s, 14, 2);
    SameNumber(p, s, 17, 2);
  }

  lemma {:induction false} SameNumber(p: string, s: string, from: nat, length: nat)
    requires from + length <= 19 <= |p| && 19 <= |s| && forall i :: 0 <= i < 19 ==> p[i] == s[i]
    ensures Number(p, from, length) == Number(s, from, length)
  {
    if length > 0 {
      SameNumber(p, s, from, length - 1);
    }
  }
}
