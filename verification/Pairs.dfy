/** Colexicographic ranking of unordered pairs: rank = C(b, 2) + a for a < b. */
module Pairs {
  import opened Rng
  import opened Arith
  import opened Squares

  type Pair = (nat, nat)

  /** The number of pairs below b, C(b, 2), as a running sum. */
  function Triangle(b: nat): (t: nat)
    ensures 2 * t == b * (b - 1)
  {
    if b == 0 then 0
    else
      assert b * (b - 1) == (b - 1) * (b - 2) + 2 * (b - 1);
      Triangle(b - 1) + (b - 1)
  }

  function Rank(p: Pair): nat { Triangle(p.1) + p.0 }

  /** Walks the rows b = 1, 2, ... of b pairs each until the rank falls inside one. */
  function UnrankFrom(rank: nat, b: nat): (p: Pair)
    requires 1 <= b
    ensures p.0 < p.1 && Rank(p) == Triangle(b) + rank
    decreases rank
  {
    if rank < b then (rank, b) else UnrankFrom(rank - b, b + 1)
  }

  function Unrank(rank: nat): (p: Pair)
    ensures p.0 < p.1 && Rank(p) == rank
  {
    UnrankFrom(rank, 1)
  }

  lemma {:induction false} TriangleMonotone(b: nat, c: nat)
    requires b <= c
    ensures Triangle(b) <= Triangle(c)
    decreases c - b
  {
    if b < c {
      TriangleMonotone(b, c - 1);
    }
  }

  /** A pair lies in row b exactly when its rank lies between consecutive triangles. */
  lemma RowUnique(rank: nat, b: nat, c: nat)
    requires Triangle(b) <= rank < Triangle(b + 1)
    requires Triangle(c) <= rank < Triangle(c + 1)
    ensures b == c
  {
    if b < c { TriangleMonotone(b + 1, c); }
    if c < b { TriangleMonotone(c + 1, b); }
  }

  /** Ranking and unranking are mutually inverse. */
  lemma UnrankRank(p: Pair)
    requires p.0 < p.1
    ensures Unrank(Rank(p)) == p
  {
    RowUnique(Rank(p), p.1, Unrank(Rank(p)).1);
  }

  /** Ranks below C(n, 2) are exactly the ranks of pairs of players below n. */
  lemma UnrankInRange(rank: nat, n: nat)
    ensures rank < Triangle(n) <==> Unrank(rank).1 < n
  {
    var p := Unrank(rank);
    if p.1 < n {
      TriangleMonotone(p.1 + 1, n);
    } else {
      TriangleMonotone(n, p.1);
    }
  }

  lemma SquareAroundRow(b: nat)
    ensures (2 * b + 1) * (2 * b + 1) == 8 * Triangle(b + 1) + 1
    ensures 0 < b ==> (2 * b - 1) * (2 * b - 1) == 8 * Triangle(b) + 1
  {
    assert (2 * b + 1) * (2 * b + 1) == 4 * ((b + 1) * b) + 1;
    assert (2 * b - 1) * (2 * b - 1) == 4 * (b * (b - 1)) + 1;
  }

  /** The square-root estimate of the row is already exact. */
  lemma EstimateExact(rank: nat, s: nat)
    requires s * s <= 1 + 8 * rank < (s + 1) * (s + 1)
    ensures Triangle((1 + s) / 2) <= rank < Triangle((1 + s) / 2 + 1)
  {
    hide Triangle;
    var b := (1 + s) / 2;
    SquareAroundRow(b);
    SquareMonotone(s + 1, 2 * b + 1);
    if 0 < b {
      SquareMonotone(2 * b - 1, s);
    } else {
      TriangleZero();
    }
  }

  lemma TriangleZero()
    ensures Triangle(0) == 0
  {}

  /** C(b, 2) as the machine computes it. */
  function Choose2(b: nat): nat {
    if b == 0 then 0 else b * (b - 1) / 2
  }

  lemma Choose2IsTriangle(b: nat)
    ensures Choose2(b) == Triangle(b)
    ensures b <= 65536 ==> b * (b - 1) < U32_SIZE
  {
    if 0 < b <= 65536 { MulMonotone(b, 65536, b - 1); }
  }

  /** Ranks of pairs of players below 65536. */
  const RANK_LIMIT: nat := 2_147_450_880

  lemma RowLimit(rank: nat, b: nat)
    requires Triangle(b) <= rank < RANK_LIMIT
    ensures b < 65536
  {
    hide Triangle;
    var c := if b < 65536 then 65536 else b;
    MulMonotone(65536, c, 65535);
    MulMonotone(65535, c - 1, c);
    MulCommutes(c - 1, c);
  }

  /** The machine form; every 32-bit product fits for ranks of pairs below 65536. */
  method UnrankPair(rank: nat) returns (a: nat, b: nat)
    requires rank < RANK_LIMIT
    ensures (a, b) == Unrank(rank)
  {
    hide Triangle, Unrank, FloorSqrt, Choose2;
    var val := 1 + 8 * rank;
    var s := NewtonFloor(val);
    b := (1 + s) / 2;
    EstimateExact(rank, s);
    RowLimit(rank, b);
    while b > 0 && Choose2(b) > rank
      invariant b < 65536 && rank < Triangle(b + 1)
      decreases b
    {
      Choose2IsTriangle(b);
      b := b - 1;
    }
    Choose2IsTriangle(b);
    TriangleZero();
    while Choose2(b + 1) <= rank
      invariant b < 65536 && Triangle(b) <= rank
      decreases 65536 - b
    {
      Choose2IsTriangle(b + 1);
      RowLimit(rank, b + 1);
      b := b + 1;
    }
    Choose2IsTriangle(b);
    Choose2IsTriangle(b + 1);
    a := rank - Choose2(b);
    RowIsUnrank(rank, b);
  }

  lemma RowIsUnrank(rank: nat, b: nat)
    requires Triangle(b) <= rank < Triangle(b + 1)
    ensures Unrank(rank) == (rank - Triangle(b), b)
  {
    RowUnique(rank, b, Unrank(rank).1);
  }
}
