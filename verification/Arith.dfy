/** The few nonlinear facts about naturals that the scheduler proofs rest on. */
module Arith {

  lemma {:induction false} MulMonotone(a: nat, b: nat, c: nat)
    requires a <= b
    ensures a * c <= b * c
    decreases b - a
  {
    if a < b {
      MulMonotone(a + 1, b, c);
      assert (a + 1) * c == a * c + c;
    }
  }

  lemma SquareMonotone(a: nat, b: nat)
    requires a <= b
    ensures a * a <= b * b
  {
    MulMonotone(a, b, a);
    MulMonotone(a, b, b);
  }

  lemma MulCommutes(a: int, b: int)
    ensures a * b == b * a
  {}

  /** Quotient and remainder of naturals are naturals, as machine division has them. */
  function Quot(v: nat, h: nat): nat
    requires 0 < h
  {
    v / h
  }

  function Rem(v: nat, h: nat): (r: nat)
    requires 0 < h
    ensures r < h
  {
    v % h
  }

  lemma DivModIdentity(v: nat, h: nat)
    requires 0 < h
    ensures v == (v / h) * h + v % h && v % h < h
    ensures v == Quot(v, h) * h + Rem(v, h)
  {
    MulCommutes(v / h, h);
  }

  /** Division with remainder is unique. */
  lemma DivModUnique(q: nat, r: nat, h: nat)
    requires r < h
    ensures (q * h + r) / h == Quot(q * h + r, h) == q
    ensures (q * h + r) % h == Rem(q * h + r, h) == r
  {
    var v := q * h + r;
    var q', r' := Quot(v, h), Rem(v, h);
    DivModIdentity(v, h);
    assert (q' + 1) * h == q' * h + h;
    assert (q + 1) * h == q * h + h;
    if q' < q {
      MulMonotone(q' + 1, q, h);
    } else if q < q' {
      MulMonotone(q + 1, q', h);
    }
  }

  lemma ModSmall(x: nat, h: nat)
    requires x < h
    ensures x % h == x
  {
    DivModUnique(0, x, h);
  }

  lemma ModWrap(x: nat, h: nat)
    requires x < h
    ensures (x + h) % h == x
  {
    DivModUnique(1, x, h);
  }

  /** Below 2 * h the remainder is reached by at most one subtraction. */
  lemma ModTwice(x: nat, h: nat)
    requires 0 < h && x < 2 * h
    ensures x % h == Rem(x, h) == if x < h then x else x - h
  {
    if x < h { ModSmall(x, h); } else { ModWrap(x - h, h); }
  }

  lemma GridBound(l: nat, r: nat, h: nat, m: nat)
    requires l < m && r < h
    ensures l * h + r < m * h
  {
    MulMonotone(l + 1, m, h);
    assert (l + 1) * h == l * h + h;
  }

  /** A quotient is below m exactly when the dividend is below m * h. */
  lemma DivBelow(v: nat, h: nat, m: nat)
    requires 0 < h && v < m * h
    ensures v / h == Quot(v, h) < m
  {
    var q := Quot(v, h);
    DivModIdentity(v, h);
    if m <= q {
      MulMonotone(m, q, h);
    }
  }
}
