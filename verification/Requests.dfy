/**
 Requests that this side sends to the server. A request is owned by exactly one place at a time, so it is
 a value that moves from queue to queue.
 */
module Requests {
  import opened Units

  /** period 0 means that the request never times out. Ticks are milliseconds in an `unsigned long`. */
  datatype Request = Request(id: nat, timeoutStart: nat, timeoutPeriod: nat, timedOut: bool, sent: bool)

  predicate IsTimeoutExceeded(r: Request, tick: nat) {
    r.timedOut || (r.timeoutPeriod != 0 && (tick - r.timeoutStart) % TICKS >= r.timeoutPeriod)
  }

  // ----- dropping timed out requests from a list -----

  /** Whether each request has timed out; request k is tested at tick ticks(k). */
  function Verdicts(s: seq<Request>, ticks: nat -> nat): (v: seq<bool>)
    ensures |v| == |s|
  {
    seq(|s|, k requires 0 <= k < |s| => IsTimeoutExceeded(s[k], ticks(k)))
  }

  /** The requests that survive. */
  function Kept(s: seq<Request>, v: seq<bool>): seq<Request>
    requires |s| == |v|
  {
    if s == [] then []
    else
      var n := |s| - 1;
      Kept(s[..n], v[..n]) + (if v[n] then [] else [s[n]])
  }

  /** The requests that time out. */
  function Expired(s: seq<Request>, v: seq<bool>): seq<Request>
    requires |s| == |v|
  {
    if s == [] then []
    else
      var n := |s| - 1;
      Expired(s[..n], v[..n]) + (if v[n] then [s[n]] else [])
  }

  /** Together, k and e have the elements of s. */
  ghost predicate Partition(k: seq<Request>, e: seq<Request>, s: seq<Request>) {
    multiset(k) + multiset(e) == multiset(s)
  }

  lemma PartitionSnoc(k: seq<Request>, e: seq<Request>, s: seq<Request>, x: Request)
    requires Partition(k, e, s)
    ensures Partition(k + [x], e, s + [x]) && Partition(k, e + [x], s + [x])
  {
  }

  lemma LastVerdict(s: seq<Request>, v: seq<bool>)
    requires |s| == |v| && s != []
    ensures var n := |s| - 1;
            && Kept(s, v) == (if v[n] then Kept(s[..n], v[..n]) else Kept(s[..n], v[..n]) + [s[n]])
            && Expired(s, v) == (if v[n] then Expired(s[..n], v[..n]) + [s[n]] else Expired(s[..n], v[..n]))
  {
  }

  /** Every request is either kept or times out, and none is lost or duplicated. */
  lemma KeptAndExpiredPartition(s: seq<Request>, v: seq<bool>)
    requires |s| == |v|
    ensures multiset(Kept(s, v)) + multiset(Expired(s, v)) == multiset(s)
  {
    PartitionByVerdict(s, v);
  }

  lemma {:induction false} PartitionByVerdict(s: seq<Request>, v: seq<bool>)
    requires |s| == |v|
    ensures Partition(Kept(s, v), Expired(s, v), s)
  {
    if s != [] {
      hide Kept, Expired, Partition;
      var n := |s| - 1;
      PartitionByVerdict(s[..n], v[..n]);
      LastVerdict(s, v);
      PartitionSnoc(Kept(s[..n], v[..n]), Expired(s[..n], v[..n]), s[..n], s[n]);
      assert s == s[..n] + [s[n]];
    }
  }

  /** A request that was sent times out exactly when its period has passed; period 0 means never. */
  lemma TimesOutIff(r: Request, elapsed: nat)
    requires !r.timedOut && r.timeoutStart < TICKS && elapsed < TICKS
    ensures IsTimeoutExceeded(r, (r.timeoutStart + elapsed) % TICKS)
            <==> r.timeoutPeriod > 0 && elapsed >= r.timeoutPeriod
  {
  }

  /** A request stays if its test says so, in its place among those that stay. */
  lemma {:induction false} KeptInPlace(s: seq<Request>, v: seq<bool>, k: nat)
    requires |s| == |v| && k < |s| && !v[k]
    ensures |Kept(s[..k], v[..k])| < |Kept(s, v)| && Kept(s, v)[|Kept(s[..k], v[..k])|] == s[k]
  {
    var n := |s| - 1;
    if k < n {
      KeptInPlace(s[..n], v[..n], k);
      assert s[..n][..k] == s[..k] && v[..n][..k] == v[..k];
    }
  }

  lemma {:induction false} ExpiredInPlace(s: seq<Request>, v: seq<bool>, k: nat)
    requires |s| == |v| && k < |s| && v[k]
    ensures |Expired(s[..k], v[..k])| < |Expired(s, v)| && Expired(s, v)[|Expired(s[..k], v[..k])|] == s[k]
  {
    var n := |s| - 1;
    if k < n {
      ExpiredInPlace(s[..n], v[..n], k);
      assert s[..n][..k] == s[..k] && v[..n][..k] == v[..k];
    }
  }

  /** Request r is in the list, and its test says that it has, or has not, timed out. */
  ghost predicate TestedAs(s: seq<Request>, v: seq<bool>, r: Request, verdict: bool)
    requires |s| == |v|
  {
    exists k :: 0 <= k < |s| && s[k] == r && v[k] == verdict
  }

  lemma TestedLast(s: seq<Request>, v: seq<bool>, r: Request, verdict: bool)
    requires |s| == |v| && s != []
    ensures var n := |s| - 1;
            TestedAs(s, v, r, verdict) <==> TestedAs(s[..n], v[..n], r, verdict) || (s[n] == r && v[n] == verdict)
  {
    var n := |s| - 1;
    if k :| 0 <= k < n && s[k] == r && v[k] == verdict {
      assert s[..n][k] == r && v[..n][k] == verdict;
    }
  }

  /** Nothing else stays or times out. */
  lemma {:induction false} OnlyTested(s: seq<Request>, v: seq<bool>, r: Request)
    requires |s| == |v|
    ensures r in Kept(s, v) <==> TestedAs(s, v, r, false)
    ensures r in Expired(s, v) <==> TestedAs(s, v, r, true)
  {
    if s != [] {
      var n := |s| - 1;
      TestedLast(s, v, r, false);
      TestedLast(s, v, r, true);
      hide TestedAs;
      OnlyTested(s[..n], v[..n], r);
    }
  }

  lemma NextVerdict(s: seq<Request>, v: seq<bool>, j: nat)
    requires |s| == |v| && j < |s|
    ensures Kept(s[..j + 1], v[..j + 1]) == Kept(s[..j], v[..j]) + (if v[j] then [] else [s[j]])
    ensures Expired(s[..j + 1], v[..j + 1]) == Expired(s[..j], v[..j]) + (if v[j] then [s[j]] else [])
  {
    assert s[..j + 1][..j] == s[..j] && v[..j + 1][..j] == v[..j];
  }

  /** After j tests: c is the queue, e has timed out, and the next request to test is at position i of c. */
  ghost predicate Tested(s: seq<Request>, v: seq<bool>, c: seq<Request>, e: seq<Request>, i: nat, j: nat) {
    && |s| == |v| && j <= |s| && i == |Kept(s[..j], v[..j])|
    && c == Kept(s[..j], v[..j]) + s[j..]
    && e == Expired(s[..j], v[..j])
  }

  lemma NothingTested(s: seq<Request>, v: seq<bool>)
    requires |s| == |v|
    ensures Tested(s, v, s, [], 0, 0)
  {
  }

  /** When the position reaches the end of the queue, everything has been tested. */
  lemma EverythingTested(s: seq<Request>, v: seq<bool>, c: seq<Request>, e: seq<Request>, j: nat)
    requires Tested(s, v, c, e, |c|, j)
    ensures c == Kept(s, v) && e == Expired(s, v)
  {
    assert j == |s| && s[..j] == s && v[..j] == v;
  }

  /** One more test removes the element at position i or leaves it there. */
  lemma AfterTest(s: seq<Request>, v: seq<bool>, c: seq<Request>, e: seq<Request>, i: nat, j: nat)
    requires Tested(s, v, c, e, i, j) && i < |c|
    ensures j < |s| && c[i] == s[j]
    ensures if v[j] then Tested(s, v, c[..i] + c[i + 1..], e + [s[j]], i, j + 1)
            else Tested(s, v, c, e + [], i + 1, j + 1)
  {
    NextVerdict(s, v, j);
    var k := Kept(s[..j], v[..j]);
    assert c[..i] + c[i + 1..] == k + s[j + 1..];
    assert c == (k + [s[j]]) + s[j + 1..];
  }
}
