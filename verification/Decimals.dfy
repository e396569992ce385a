// Exact decimal arithmetic: a Decimal is a real, and a size with `decimals`
// places lies on the lattice of multiples of 10^-decimals.
module Decimals {

  function Abs(x: real): real {
    if x < 0.0 then -x else x
  }

  function Sign(x: real): real {
    if x > 0.0 then 1.0 else if x < 0.0 then -1.0 else 0.0
  }

  function Max(a: real, b: real): real {
    if a < b then b else a
  }

  function Min(a: real, b: real): real {
    if b < a then b else a
  }

  function PowerOfTen(n: nat): (p: int)
    ensures p >= 1
  {
    if n == 0 then 1 else 10 * PowerOfTen(n - 1)
  }

  /** How many lattice steps per unit. */
  function Steps(decimals: nat): (p: real)
    ensures p >= 1.0
  {
    PowerOfTen(decimals) as real
  }

  function Quantum(decimals: nat): (q: real)
    ensures q > 0.0
  {
    1.0 / Steps(decimals)
  }

  /** The point n quanta from zero. */
  function LatticePoint(n: int, decimals: nat): real {
    n as real / Steps(decimals)
  }

  /** x is a whole number of quanta. */
  ghost predicate OnLattice(x: real, decimals: nat) {
    exists n: int :: x == LatticePoint(n, decimals)
  }

  /** Rounds a positive value toward zero onto the lattice; other values give zero. */
  function QuantizeDown(value: real, decimals: nat): real {
    if value <= 0.0 then 0.0
    else LatticePoint((value * Steps(decimals)).Floor, decimals)
  }

  lemma ScaleOrder(a: real, b: real, p: real)
    requires p > 0.0
    ensures a * p <= b * p <==> a <= b
    ensures a / p <= b / p <==> a <= b
    ensures a / p * p == a
  {
    assert a / p * p == a;
    assert b / p * p == b;
  }

  lemma LatticeOrder(m: int, n: int, decimals: nat)
    ensures LatticePoint(m, decimals) <= LatticePoint(n, decimals) <==> m <= n
  {
    ScaleOrder(m as real, n as real, Steps(decimals));
  }

  /** Between a lattice point and the value it was rounded from there is no other. */
  lemma FloorIsGreatest(value: real, n: int, decimals: nat)
    requires LatticePoint(n, decimals) <= value
    ensures n <= (value * Steps(decimals)).Floor
  {
    var p := Steps(decimals);
    ScaleOrder(n as real, n as real, p);
    ScaleOrder(LatticePoint(n, decimals), value, p);
    assert n as real <= value * p;
  }

  lemma ProductPositive(a: real, b: real)
    requires a > 0.0 && b > 0.0
    ensures a * b > 0.0
  {
  }

  lemma QuotientBetween(n: real, v: real, p: real)
    requires p > 0.0 && 0.0 <= n <= v * p
    ensures 0.0 <= n / p <= v
  {
    var q := n / p;
    assert q * p == n;
    ScaleOrder(q, v, p);
  }

  /** A positive value is rounded to a non-negative point not above it. */
  lemma QuantizeDownBounds(value: real, decimals: nat)
    requires value > 0.0
    ensures 0.0 <= QuantizeDown(value, decimals) <= value
  {
    var p := Steps(decimals);
    ProductPositive(value, p);
    QuotientBetween((value * p).Floor as real, value, p);
  }

  /** The rounded value is the greatest lattice point not above the value. */
  lemma QuantizeDownIsGreatestLatticePoint(value: real, decimals: nat)
    ensures var q := QuantizeDown(value, decimals);
            && OnLattice(q, decimals)
            && 0.0 <= q <= Max(0.0, value)
            && (forall x: real :: OnLattice(x, decimals) && x <= Max(0.0, value) ==> x <= q)
  {
    var q := QuantizeDown(value, decimals);
    assert LatticePoint(0, decimals) == 0.0;
    hide LatticePoint;
    if value > 0.0 {
      QuantizeDownBounds(value, decimals);
      var n := (value * Steps(decimals)).Floor;
      forall x: real | OnLattice(x, decimals) && x <= value
        ensures x <= q
      {
        var m :| x == LatticePoint(m, decimals);
        FloorIsGreatest(value, m, decimals);
        LatticeOrder(m, n, decimals);
      }
    }
  }

  lemma QuantizeDownMonotone(a: real, b: real, decimals: nat)
    requires a <= b
    ensures QuantizeDown(a, decimals) <= QuantizeDown(b, decimals)
  {
    QuantizeDownIsGreatestLatticePoint(a, decimals);
    QuantizeDownIsGreatestLatticePoint(b, decimals);
  }

  /** Two lattice points that differ are at least one quantum apart. */
  lemma LatticeGap(a: real, b: real, decimals: nat)
    requires OnLattice(a, decimals) && OnLattice(b, decimals)
    requires a < b
    ensures a + Quantum(decimals) <= b
  {
    var m :| a == LatticePoint(m, decimals);
    var n :| b == LatticePoint(n, decimals);
    LatticeOrder(n, m, decimals);
    LatticeOrder(m + 1, n, decimals);
    var p := Steps(decimals);
    assert (m + 1) as real / p == m as real / p + 1.0 / p;
  }

  /** The negation and the absolute value of a lattice point are lattice points. */
  lemma LatticeAbs(x: real, decimals: nat)
    requires OnLattice(x, decimals)
    ensures OnLattice(-x, decimals)
    ensures OnLattice(Abs(x), decimals)
  {
    var n :| x == LatticePoint(n, decimals);
    assert -x == LatticePoint(-n, decimals);
  }
}
