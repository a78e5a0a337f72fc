/**
 Arithmetic on transaction numbers, which run from 0 to m - 1 and wrap around (m is MAX_TX_CNT).
 The connector writes every step and distance with the modulo operator. Here they are defined by
 cases, which keeps proofs linear, and the lemmas say that both forms agree.
 */
module Cyclic {

  function Next(a: nat, m: nat): nat
    requires a < m
  {
    if a + 1 == m then 0 else a + 1
  }

  function Prev(a: nat, m: nat): nat
    requires a < m
  {
    if a == 0 then m - 1 else a - 1
  }

  /** How many steps lead from a up to b. Also the number of elements of the window [a, b). */
  function Dist(a: nat, b: nat, m: nat): nat
    requires a < m && b < m
  {
    if a <= b then b - a else b + m - a
  }

  /** x is one of begin, begin + 1, ..., end - 1 (cyclically). The window is empty if begin == end. */
  predicate InWindow(begin: nat, end: nat, x: nat, m: nat)
    requires begin < m && end < m && x < m
  {
    Dist(begin, x, m) < Dist(begin, end, m)
  }

  lemma ModularForms(a: nat, b: nat, m: nat)
    requires a < m && b < m
    ensures (a + 1) % m == Next(a, m)
    ensures (a + m - 1) % m == Prev(a, m)
    ensures (b + m - a) % m == Dist(a, b, m)
  {
    WrapOnce(a + 1, m);
    WrapOnce(a + m - 1, m);
    WrapOnce(b + m - a, m);
  }

  /** The distance between two numbers, from their distances to a common origin. */
  lemma DistFromOrigin(origin: nat, a: nat, b: nat, m: nat)
    requires origin < m && a < m && b < m
    ensures Dist(origin, a, m) < m && Dist(origin, b, m) < m
    ensures var x, y := Dist(origin, a, m), Dist(origin, b, m);
            Dist(a, b, m) == (if x <= y then y - x else y + m - x)
  {
  }

  lemma WrapOnce(x: nat, m: nat)
    requires 0 < m && x < 2 * m
    ensures x % m == (if x < m then x else x - m)
  {
    var q := x / m;
    assert x == q * m + x % m;
    assert q >= 2 ==> q * m >= 2 * m;
    assert q == 1 ==> q * m == m;
    assert q == 0 ==> q * m == 0;
  }
}
