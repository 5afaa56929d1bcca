/** Integer square roots by Newton's method. */
module Squares {
  import opened Rng
  import opened Arith

  /** The largest r with r * r <= n, found by counting up. */
  function FloorSqrt(n: nat): (r: nat)
    ensures r * r <= n < (r + 1) * (r + 1)
  {
    if n == 0 then 0
    else
      var r := FloorSqrt(n - 1);
      if (r + 1) * (r + 1) <= n then r + 1 else r
  }

  /** The least h with h * h >= n. */
  function CeilSqrt(n: nat): (h: nat)
    ensures n <= h * h
    ensures forall g: nat :: g < h ==> g * g < n
  {
    var r := FloorSqrt(n);
    var h := if r * r == n then r else r + 1;
    assert forall g: nat :: g < h ==> g * g < n by {
      forall g: nat | g < h ensures g * g < n { SquareMonotone(g, if r * r == n then r - 1 else r); }
    }
    h
  }

  /** Only one r brackets n between consecutive squares. */
  lemma FloorSqrtUnique(n: nat, r: nat)
    requires r * r <= n < (r + 1) * (r + 1)
    ensures r == FloorSqrt(n)
  {
    var s := FloorSqrt(n);
    if r < s {
      SquareMonotone(r + 1, s);
    } else if s < r {
      SquareMonotone(s + 1, r);
    }
  }

  /** The arithmetic mean of x and z is at least their geometric mean. */
  lemma MeanBound(x: nat, z: nat)
    ensures 4 * (x * z) <= (x + z) * (x + z)
  {
    var d := if x <= z then z - x else x - z;
    assert (x + z) * (x + z) == x * x + 2 * (x * z) + z * z;
    assert d * d == x * x - 2 * (x * z) + z * z;
    assert 0 <= d * d;
  }

  /** One Newton step from any positive x never lands below the root. */
  lemma NewtonStepAbove(n: nat, x: nat)
    requires 0 < x
    ensures n < ((x + n / x) / 2 + 1) * ((x + n / x) / 2 + 1)
  {
    var q := n / x;
    var y := (x + q) / 2;
    DivModIdentity(n, x);
    assert n < (q + 1) * x by { assert (q + 1) * x == q * x + x; }
    MulCommutes(q + 1, x);
    MeanBound(x, q + 1);
    SquareMonotone(x + q + 1, 2 * (y + 1));
    assert (2 * (y + 1)) * (2 * (y + 1)) == 4 * ((y + 1) * (y + 1));
  }

  /** A Newton step that does not descend has reached the root. */
  lemma NewtonFixpoint(n: nat, x: nat)
    requires 0 < x && x <= (x + n / x) / 2
    ensures x * x <= n
  {
    DivModIdentity(n, x);
    MulMonotone(x, n / x, x);
  }

  /** The sum formed by a Newton step stays within one of n, so it cannot overflow n's word. */
  lemma NewtonSumFits(n: nat, x: nat)
    requires 1 <= x <= n
    ensures 1 <= n / x && x + n / x <= n + 1
  {
    var q := n / x;
    DivModIdentity(n, x);
    assert q != 0;
    MulMonotone(1, q, x - 1);
    assert q * x == q * (x - 1) + q;
  }

  /** The Newton iteration from x = n, shared by both square-root loops of the scheduler. */
  method NewtonFloor(n: nat) returns (x: nat)
    requires 1 <= n
    ensures x == FloorSqrt(n)
  {
    x := n;
    var y := (x + 1) / 2;
    assert n / n == 1;
    assert n < (n + 1) * (n + 1) by { assert (n + 1) * (n + 1) == n * n + 2 * n + 1; }
    NewtonSumFits(n, n);
    while y < x
      invariant 1 <= x <= n
      invariant y == (x + n / x) / 2
      invariant n < (x + 1) * (x + 1)
      decreases x
    {
      NewtonStepAbove(n, x);
      NewtonSumFits(n, x);
      x := y;
      NewtonSumFits(n, x);
      y := (x + n / x) / 2;
    }
    NewtonFixpoint(n, x);
    FloorSqrtUnique(n, x);
  }

  method IsqrtCeil(n: nat) returns (h: nat)
    requires n < U32_SIZE - 1
    ensures h == CeilSqrt(n)
  {
    if n <= 1 {
      return n;
    }
    var x := NewtonFloor(n);
    if x * x == n {
      h := x;
    } else {
      h := x + 1;
    }
  }
}
