/**
 Recovery of the transaction window from the files found on flash at boot.

 Transactions are stored as "tx-<connector>-<txNr>.json". The constructor of a connector visits all
 file names in whatever order the file system enumerates them, reads the number out of each name that
 belongs to it, and widens a window [begin, end) around the first number it met (the pivot).
 */
module BootScan {
  import opened Cyclic
  import opened Digits

  const UINT_MAX: nat := 0xFFFF_FFFF

  /** Reduction of an `unsigned int` result. */
  function U32(x: int): (r: nat)
    ensures r <= UINT_MAX
    ensures 0 <= x <= UINT_MAX ==> r == x
  {
    x % 0x1_0000_0000
  }

  // ----- file names -----

  /** The output of "%u". */
  function Decimal(n: nat): (s: string)
    ensures |s| > 0 && forall i :: 0 <= i < |s| ==> IsDigit(s[i])
  {
    if n < 10 then [('0' as int + n) as char] else Decimal(n / 10) + [('0' as int + n % 10) as char]
  }

  /** Reads digits until the first other character; the value wraps like an `unsigned int`. */
  function ParseDigits(s: string, value: nat): nat
    decreases |s|
  {
    if |s| > 0 && IsDigit(s[0]) then ParseDigits(s[1..], U32(value * 10 + (s[0] as int - '0' as int))) else value
  }

  function FilePrefix(connectorId: nat): string { "tx-" + Decimal(connectorId) + "-" }

  function FileName(connectorId: nat, txNr: nat): string {
    FilePrefix(connectorId) + Decimal(txNr) + ".json"
  }

  /** The transaction numbers that connector connectorId reads out of a directory listing, in order. */
  function NumbersOf(names: seq<string>, connectorId: nat): seq<nat> {
    if names == [] then []
    else
      var init, last := names[..|names| - 1], names[|names| - 1];
      NumbersOf(init, connectorId) +
      (if FilePrefix(connectorId) <= last then [ParseDigits(last[|FilePrefix(connectorId)|..], 0)] else [])
  }

  // ----- the scan -----

  datatype Scan = Scan(pivot: nat, begin: nat, end: nat)

  const NOTHING_FOUND := Scan(UINT_MAX, 0, 0)

  /** One call of the directory callback. */
  function ScanStep(s: Scan, nr: nat, m: nat): Scan
    requires m > 0
  {
    if s.pivot == UINT_MAX then
      Scan(nr, nr, U32(nr + 1) % m)
    else if U32(nr + m - s.pivot) % m < m / 2 then
      if U32(nr + 1 + m - s.pivot) % m > U32(s.end + m - s.pivot) % m then s.(end := U32(nr + 1) % m) else s
    else if U32(s.pivot + m - nr) % m < m / 2 then
      if U32(s.pivot + m - nr) % m > U32(s.pivot + m - s.begin) % m then s.(begin := nr) else s
    else s
  }

  function ScanAll(nrs: seq<nat>, m: nat): Scan
    requires m > 0
  {
    if nrs == [] then NOTHING_FOUND else ScanStep(ScanAll(nrs[..|nrs| - 1], m), nrs[|nrs| - 1], m)
  }

  /** The directory callback, once the number is parsed. */
  method Visit(parsedTxNr: nat, pivot: nat, begin: nat, end: nat, m: nat) returns (pivot': nat, begin': nat, end': nat)
    requires m > 0
    ensures Scan(pivot', begin', end') == ScanStep(Scan(pivot, begin, end), parsedTxNr, m)
  {
    pivot', begin', end' := pivot, begin, end;
    if pivot == UINT_MAX {
      pivot' := parsedTxNr;
      begin' := parsedTxNr;
      end' := U32(parsedTxNr + 1) % m;
    } else if U32(parsedTxNr + m - pivot) % m < m / 2 {
      if U32(parsedTxNr + 1 + m - pivot) % m > U32(end + m - pivot) % m {
        end' := U32(parsedTxNr + 1) % m;
      }
    } else if U32(pivot + m - parsedTxNr) % m < m / 2 {
      if U32(pivot + m - parsedTxNr) % m > U32(pivot + m - begin) % m {
        begin' := parsedTxNr;
      }
    }
  }

  /** The digit loop of the directory callback. */
  method ReadDigits(fname: string, start: nat) returns (parsedTxNr: nat)
    requires start <= |fname|
    ensures parsedTxNr == ParseDigits(fname[start..], 0)
  {
    parsedTxNr := 0;
    var i := start;
    while i < |fname| && IsDigit(fname[i])
      invariant start <= i <= |fname|
      invariant ParseDigits(fname[i..], parsedTxNr) == ParseDigits(fname[start..], 0)
    {
      parsedTxNr := U32(parsedTxNr * 10 + (fname[i] as int - '0' as int));
      i := i + 1;
    }
  }

  lemma ScanNextName(names: seq<string>, k: nat, connectorId: nat, m: nat)
    requires k < |names| && m > 0
    ensures var prefix, before := FilePrefix(connectorId), ScanAll(NumbersOf(names[..k], connectorId), m);
            ScanAll(NumbersOf(names[..k + 1], connectorId), m) ==
            if prefix <= names[k] then ScanStep(before, ParseDigits(names[k][|prefix|..], 0), m) else before
  {
    assert names[..k + 1][..k] == names[..k];
    var prefix, before := FilePrefix(connectorId), NumbersOf(names[..k], connectorId);
    if prefix <= names[k] {
      var nr := ParseDigits(names[k][|prefix|..], 0);
      assert (before + [nr])[..|before|] == before;
    } else {
      assert NumbersOf(names[..k + 1], connectorId) == before;
    }
  }

  /** The directory walk of the constructor, as the loops it is. */
  method Recover(names: seq<string>, connectorId: nat, m: nat) returns (begin: nat, end: nat)
    requires m > 0
    ensures begin == ScanAll(NumbersOf(names, connectorId), m).begin
    ensures end == ScanAll(NumbersOf(names, connectorId), m).end
  {
    var prefix := FilePrefix(connectorId);
    var pivot: nat := UINT_MAX;
    begin, end := 0, 0;
    for k := 0 to |names|
      invariant Scan(pivot, begin, end) == ScanAll(NumbersOf(names[..k], connectorId), m)
    {
      ScanNextName(names, k, connectorId, m);
      if prefix <= names[k] {
        var parsedTxNr := ReadDigits(names[k], |prefix|);
        pivot, begin, end := Visit(parsedTxNr, pivot, begin, end, m);
      }
    }
    assert names[..|names|] == names;
  }

  lemma NumbersOfOne(name: string, connectorId: nat)
    ensures var prefix := FilePrefix(connectorId);
            NumbersOf([name], connectorId) == if prefix <= name then [ParseDigits(name[|prefix|..], 0)] else []
  {
    var none: seq<string> := [];
    assert [name][..0] == none;
  }

  // ----- what the scan finds -----

  /** The numbers are transaction numbers and the sums in the scan fit an `unsigned int`. */
  ghost predicate ValidNumbers(nrs: seq<nat>, m: nat) {
    2 <= m < 0x8000_0000 && forall i :: 0 <= i < |nrs| ==> nrs[i] < m
  }

  /** x lies less than half a turn after, or less than half a turn before p. */
  predicate Near(p: nat, x: nat, m: nat)
    requires p < m && x < m
  {
    Dist(p, x, m) < m / 2 || Dist(x, p, m) < m / 2
  }

  /** x, if near the pivot, is not outside the part of the window on its side of the pivot. */
  ghost predicate Reached(s: Scan, x: nat, m: nat)
    requires s.pivot < m && s.begin < m && s.end < m && x < m
  {
    if Dist(s.pivot, x, m) < m / 2 then Dist(s.pivot, x, m) <= Dist(s.pivot, Prev(s.end, m), m)
    else Dist(x, s.pivot, m) < m / 2 ==> Dist(x, s.pivot, m) <= Dist(s.begin, s.pivot, m)
  }

  /** What the window means relative to the pivot after any number of callbacks. */
  ghost predicate AroundPivot(nrs: seq<nat>, s: Scan, m: nat)
    requires ValidNumbers(nrs, m) && nrs != []
  {
    && s.pivot == nrs[0] && s.begin < m && s.end < m
    && s.begin in nrs && Prev(s.end, m) in nrs
    && Dist(s.begin, s.pivot, m) < m / 2
    && Dist(s.pivot, Prev(s.end, m), m) < m / 2
    && forall x :: x in nrs ==> Reached(s, x, m)
  }

  lemma U32Dist(a: nat, b: nat, m: nat)
    requires a < m && b < m < 0x8000_0000
    ensures U32(b + m - a) % m == Dist(a, b, m)
    ensures U32(a + 1) % m == Next(a, m)
  {
    ModularForms(a, b, m);
  }

  /** The callback without the modulo operator. */
  lemma ScanStepByCases(s: Scan, nr: nat, m: nat)
    requires s.pivot < m && s.begin < m && s.end < m && nr < m && 2 <= m < 0x8000_0000
    ensures ScanStep(s, nr, m) ==
            if Dist(s.pivot, nr, m) < m / 2 then
              if Dist(s.pivot, nr, m) + 1 > Dist(s.pivot, s.end, m) then s.(end := Next(nr, m)) else s
            else if Dist(nr, s.pivot, m) < m / 2 then
              if Dist(nr, s.pivot, m) > Dist(s.begin, s.pivot, m) then s.(begin := nr) else s
            else s
  {
    U32Dist(s.pivot, nr, m);
    U32Dist(nr, s.pivot, m);
    U32Dist(s.begin, s.pivot, m);
    U32Dist(s.pivot, s.end, m);
    if Dist(s.pivot, nr, m) < m / 2 {
      var d := Dist(s.pivot, nr, m);
      if nr >= s.pivot {
        WrapOnce(nr + 1 + m - s.pivot, m);
      } else {
        WrapOnce(nr + 1 + m - s.pivot, m);
      }
    }
  }

  lemma StepReaches(s: Scan, nr: nat, x: nat, m: nat)
    requires s.pivot < m && s.begin < m && s.end < m && nr < m && x < m && 2 <= m < 0x8000_0000
    requires Dist(s.pivot, Prev(s.end, m), m) < m / 2
    requires x == nr || Reached(s, x, m)
    ensures var t := ScanStep(s, nr, m); t.pivot == s.pivot && t.begin < m && t.end < m && Reached(t, x, m)
  {
    ScanStepByCases(s, nr, m);
    DistFromOrigin(s.pivot, x, s.pivot, m);
    DistFromOrigin(s.pivot, nr, s.pivot, m);
    DistFromOrigin(s.pivot, s.begin, s.pivot, m);
  }

  lemma StepKeepsAroundPivot(init: seq<nat>, s: Scan, nr: nat, m: nat)
    requires ValidNumbers(init, m) && init != [] && nr < m && AroundPivot(init, s, m)
    ensures ValidNumbers(init + [nr], m) && AroundPivot(init + [nr], ScanStep(s, nr, m), m)
  {
    assert s.pivot in init;
    ScanStepByCases(s, nr, m);
    forall x | x in init + [nr] ensures x < m && Reached(ScanStep(s, nr, m), x, m) {
      StepReaches(s, nr, x, m);
    }
  }

  lemma {:induction false} ScanKeepsAroundPivot(nrs: seq<nat>, m: nat)
    requires ValidNumbers(nrs, m) && nrs != []
    ensures AroundPivot(nrs, ScanAll(nrs, m), m)
  {
    var init, nr := nrs[..|nrs| - 1], nrs[|nrs| - 1];
    assert nrs == init + [nr];
    if init == [] {
      assert ScanAll(init, m) == NOTHING_FOUND;
      U32Dist(nr, nr, m);
    } else {
      ScanKeepsAroundPivot(init, m);
      StepKeepsAroundPivot(init, ScanAll(init, m), nr, m);
    }
  }

  /**
   The recovered window contains exactly those stored numbers that are near the first one enumerated;
   nothing else is assumed about the numbers.
   */
  lemma WindowCoversExactlyNearNumbers(nrs: seq<nat>, m: nat, x: nat)
    requires ValidNumbers(nrs, m) && x in nrs
    ensures x < m
    ensures var s := ScanAll(nrs, m);
            s.begin < m && s.end < m && (InWindow(s.begin, s.end, x, m) <==> Near(nrs[0], x, m))
  {
    ScanKeepsAroundPivot(nrs, m);
    var s := ScanAll(nrs, m);
    assert Reached(s, x, m);
    DistFromOrigin(s.pivot, x, s.pivot, m);
    DistFromOrigin(s.pivot, s.begin, s.pivot, m);
    DistFromOrigin(s.pivot, s.begin, x, m);
    DistFromOrigin(s.pivot, s.begin, s.end, m);
  }

  /** All numbers lie in a cyclic range [origin, origin + length) that is at most half a turn long. */
  ghost predicate InShortRange(nrs: seq<nat>, origin: nat, length: nat, m: nat)
    requires ValidNumbers(nrs, m)
  {
    origin < m && length <= m / 2 && forall x :: x in nrs ==> x < m && Dist(origin, x, m) < length
  }

  /** Counted from origin, every number is less than half a turn before or behind the first of the listing. */
  ghost predicate AroundFirst(nrs: seq<nat>, origin: nat, m: nat)
    requires ValidNumbers(nrs, m) && nrs != []
  {
    origin < m && forall x :: x in nrs ==>
      && x < m
      && Dist(origin, x, m) < Dist(origin, nrs[0], m) + m / 2
      && Dist(origin, nrs[0], m) < Dist(origin, x, m) + m / 2
  }

  lemma ShortRangeIsAroundFirst(nrs: seq<nat>, origin: nat, length: nat, m: nat)
    requires ValidNumbers(nrs, m) && nrs != [] && InShortRange(nrs, origin, length, m)
    ensures AroundFirst(nrs, origin, m)
  {
    assert nrs[0] in nrs;
  }

  /** begin is the first and end - 1 the last of the numbers, counted from origin. */
  lemma WindowEndsAreExtreme(nrs: seq<nat>, origin: nat, m: nat)
    requires ValidNumbers(nrs, m) && nrs != [] && AroundFirst(nrs, origin, m)
    ensures var s := ScanAll(nrs, m);
            && s.begin in nrs && s.begin < m && s.end < m && Prev(s.end, m) in nrs
            && forall x :: x in nrs ==>
                 Dist(origin, s.begin, m) <= Dist(origin, x, m) <= Dist(origin, Prev(s.end, m), m)
  {
    ScanKeepsAroundPivot(nrs, m);
    var s := ScanAll(nrs, m);
    var last := Prev(s.end, m);
    forall x | x in nrs
      ensures Dist(origin, s.begin, m) <= Dist(origin, x, m) <= Dist(origin, last, m)
    {
      assert Reached(s, x, m) && s.pivot in nrs;
      DistFromOrigin(origin, s.pivot, x, m);
      DistFromOrigin(origin, x, s.pivot, m);
      DistFromOrigin(origin, s.pivot, last, m);
      DistFromOrigin(origin, s.begin, s.pivot, m);
    }
  }

  /** Of the numbers less than half a turn ahead of the first one of the listing, x is the last one. */
  ghost predicate LastAhead(nrs: seq<nat>, x: nat, m: nat)
    requires ValidNumbers(nrs, m) && nrs != []
  {
    && x in nrs && x < m && Dist(nrs[0], x, m) < m / 2
    && forall y :: y in nrs ==> y < m && (Dist(nrs[0], y, m) < m / 2 ==> Dist(nrs[0], y, m) <= Dist(nrs[0], x, m))
  }

  /** The window ends behind that number, whatever the numbers are. */
  lemma WindowEndsAhead(nrs: seq<nat>, m: nat, x: nat)
    requires ValidNumbers(nrs, m) && x in nrs
    ensures ScanAll(nrs, m).end < m && (LastAhead(nrs, x, m) <==> x == Prev(ScanAll(nrs, m).end, m))
  {
    ScanKeepsAroundPivot(nrs, m);
    var s := ScanAll(nrs, m);
    var last := Prev(s.end, m);
    assert Reached(s, x, m) && last in nrs;
    forall y | y in nrs ensures y < m && (Dist(nrs[0], y, m) < m / 2 ==> Dist(nrs[0], y, m) <= Dist(nrs[0], last, m)) {
      assert Reached(s, y, m);
    }
  }

  /** A window [b, e) around two numbers of the range is at least as long as the part between them. */
  lemma WindowSpansBoth(origin: nat, first: nat, last: nat, b: nat, e: nat, m: nat)
    requires 2 <= m && origin < m && first < m && last < m && b < m && e < m
    requires Dist(origin, first, m) <= Dist(origin, last, m) < m / 2
    requires InWindow(b, e, first, m) && InWindow(b, e, last, m)
    ensures Dist(first, Next(last, m), m) <= Dist(b, e, m)
  {
    var x, y := Dist(b, first, m), Dist(b, last, m);
    DistFromOrigin(origin, first, last, m);
    DistFromOrigin(b, first, last, m);
    assert Dist(first, Next(last, m), m) == Dist(first, last, m) + 1;
  }

  /** The window is the smallest cyclic interval containing all stored numbers. */
  lemma WindowIsSmallest(nrs: seq<nat>, origin: nat, length: nat, m: nat, b: nat, e: nat)
    requires ValidNumbers(nrs, m) && nrs != [] && InShortRange(nrs, origin, length, m)
    requires b < m && e < m && forall x :: x in nrs ==> InWindow(b, e, x, m)
    ensures var s := ScanAll(nrs, m);
            && s.begin < m && s.end < m
            && (forall x :: x in nrs ==> InWindow(s.begin, s.end, x, m))
            && Dist(s.begin, s.end, m) <= Dist(b, e, m)
  {
    var s := ScanAll(nrs, m);
    ShortRangeIsAroundFirst(nrs, origin, length, m);
    WindowEndsAreExtreme(nrs, origin, m);
    var last := Prev(s.end, m);
    WindowSpansBoth(origin, s.begin, last, b, e, m);
    forall x | x in nrs ensures InWindow(s.begin, s.end, x, m) {
      DistFromOrigin(origin, s.begin, x, m);
      DistFromOrigin(origin, s.begin, last, m);
      assert Dist(s.begin, s.end, m) == Dist(s.begin, last, m) + 1;
    }
  }

  /** The order in which the file system enumerates the files does not matter. */
  lemma EnumerationOrderIsIrrelevant(xs: seq<nat>, ys: seq<nat>, origin: nat, length: nat, m: nat)
    requires ValidNumbers(xs, m) && ValidNumbers(ys, m) && xs != [] && ys != []
    requires InShortRange(xs, origin, length, m)
    requires forall x :: x in xs <==> x in ys
    ensures ScanAll(xs, m).begin == ScanAll(ys, m).begin && ScanAll(xs, m).end == ScanAll(ys, m).end
  {
    ShortRangeIsAroundFirst(xs, origin, length, m);
    ShortRangeIsAroundFirst(ys, origin, length, m);
    WindowEndsAreExtreme(xs, origin, m);
    WindowEndsAreExtreme(ys, origin, m);
    var s, t := ScanAll(xs, m), ScanAll(ys, m);
    assert Dist(origin, s.begin, m) == Dist(origin, t.begin, m);
    assert Dist(origin, Prev(s.end, m), m) == Dist(origin, Prev(t.end, m), m);
  }

  /**
   At half a turn the promise ends: of two numbers half a turn apart, the scan forgets the second.
   */
  lemma HalfTurnApartIsForgotten(x: nat, y: nat, m: nat)
    requires 2 <= m < 0x8000_0000 && m % 2 == 0 && x < m && y < m && Dist(x, y, m) == m / 2
    ensures var s := ScanAll([x, y], m); s.begin < m && s.end < m && !InWindow(s.begin, s.end, y, m)
  {
    var nrs := [x, y];
    assert y in nrs && ValidNumbers(nrs, m);
    WindowCoversExactlyNearNumbers(nrs, m, y);
    DistFromOrigin(x, y, x, m);
  }

  // ----- what the names say -----

  lemma {:induction false} ParseDecimal(n: nat, rest: string)
    requires n <= UINT_MAX
    requires rest == [] || !IsDigit(rest[0])
    ensures ParseDigits(Decimal(n) + rest, 0) == n
  {
    ParseDecimalThen(n, rest);
  }

  lemma {:induction false} ParseDecimalThen(n: nat, rest: string)
    requires n <= UINT_MAX
    ensures ParseDigits(Decimal(n) + rest, 0) == ParseDigits(rest, n)
  {
    if n < 10 {
      assert (Decimal(n) + rest)[1..] == rest;
    } else {
      var d := [('0' as int + n % 10) as char];
      assert Decimal(n) + rest == Decimal(n / 10) + (d + rest);
      ParseDecimalThen(n / 10, d + rest);
      assert (d + rest)[1..] == rest;
      assert n / 10 * 10 + n % 10 == n;
    }
  }

  /** A file belongs to the connector whose number is in its name, and to no other. */
  lemma NameTellsConnectorAndNumber(connectorId: nat, owner: nat, txNr: nat)
    requires connectorId <= UINT_MAX && owner <= UINT_MAX && txNr <= UINT_MAX
    ensures NumbersOf([FileName(owner, txNr)], connectorId) == if owner == connectorId then [txNr] else []
  {
    var name := FileName(owner, txNr);
    NumbersOfOne(name, connectorId);
    var mine, its := FilePrefix(connectorId), FilePrefix(owner);
    var tail := Decimal(txNr) + ".json";
    assert name == its + tail;
    if owner == connectorId {
      assert name[|mine|..] == tail;
      ParseDecimal(txNr, ".json");
    } else if mine <= name {
      DashEndsDecimal(connectorId, owner, mine, name, tail);
      assert false;
    }
  }

  /** The layout of the names, at an example. */
  lemma FileNameExample()
    ensures FileName(1, 10) == "tx-1-10.json"
  {
    assert Decimal(10) == Decimal(1) + "0" && Decimal(1) == "1";
  }

  lemma DashEndsDecimal(c: nat, d: nat, prefix: string, name: string, tail: string)
    requires c <= UINT_MAX && d <= UINT_MAX
    requires prefix == "tx-" + Decimal(c) + "-" && name == "tx-" + Decimal(d) + "-" + tail
    requires prefix <= name
    ensures c == d
  {
    var x, y := Decimal(c), Decimal(d);
    assert prefix[3 + |x|] == '-' && name[3 + |y|] == '-';
    assert forall i :: 0 <= i < |x| ==> prefix[3 + i] == x[i];
    assert forall i :: 0 <= i < |y| ==> name[3 + i] == y[i];
    assert |x| == |y|;
    assert forall i :: 0 <= i < |x| ==> x[i] == y[i];
    assert x == y;
    ParseDecimal(c, "");
    ParseDecimal(d, "");
    assert x + "" == y + "";
  }
}
