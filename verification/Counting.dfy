/** Cardinalities of finite sets of indices, as the schedule and payout proofs need them. */
module Counting {
  import opened Arith

  lemma SubsetCardinality<T>(a: set<T>, b: set<T>)
    requires a <= b
    ensures |a| <= |b|
    ensures |a| == |b| ==> a == b
  {
    assert b == a + (b - a);
    assert |b| == |a| + |b - a|;
  }

  function Range(lo: int, hi: int): (s: set<int>)
    requires lo <= hi
    ensures forall x :: x in s <==> lo <= x < hi
    ensures |s| == hi - lo
    decreases hi - lo
  {
    if lo == hi then {} else Range(lo, hi - 1) + {hi - 1}
  }

  ghost predicate Injective<S, T>(m: map<S, T>) {
    forall x, y :: x in m && y in m && m[x] == m[y] ==> x == y
  }

  /** An injective map has as many values as keys. */
  lemma {:induction false} InjectiveCardinality<S, T>(m: map<S, T>)
    requires Injective(m)
    ensures |m.Values| == |m.Keys|
    decreases |m.Keys|
  {
    if m.Keys == {} {
      assert m.Values == {};
    } else {
      var x :| x in m.Keys;
      var rest := m - {x};
      assert rest.Keys == m.Keys - {x};
      InjectiveCardinality(rest);
      assert m.Values == rest.Values + {m[x]} by {
        forall y | y in m.Values ensures y in rest.Values + {m[x]} {
          var z :| z in m && m[z] == y;
          assert z == x || rest[z] == y;
        }
      }
      assert m[x] !in rest.Values;
    }
  }

  /** An injective map of a finite set into itself. */
  ghost predicate Permutation<T>(m: map<T, T>) {
    Injective(m) && m.Values <= m.Keys
  }

  /** ... hits every element. */
  lemma PermutationIsOnto<T>(m: map<T, T>)
    requires Permutation(m)
    ensures m.Values == m.Keys
  {
    InjectiveCardinality(m);
    SubsetCardinality(m.Values, m.Keys);
  }

  function Preimage<S, T>(m: map<S, T>, s: set<T>): set<S> {
    set x | x in m && m[x] in s
  }

  /** Permuting the index set does not change how many indices land in a subset. */
  lemma PermutedCount<T>(m: map<T, T>, s: set<T>)
    requires Permutation(m) && s <= m.Keys
    ensures |Preimage(m, s)| == |s|
  {
    var pre := Preimage(m, s);
    var part := map x | x in pre :: m[x];
    assert forall y :: y in s ==> y in m.Values by { PermutationIsOnto(m); }
    forall y | y in s ensures y in part.Values {
      var x :| x in m && m[x] == y;
      assert part[x] == y;
    }
    assert part.Values == s;
    assert part.Keys == pre;
    InjectiveCardinality(part);
  }

  /** The members of s in the g-th block of h consecutive integers, as offsets into the block. */
  function Row(s: set<int>, h: nat, g: nat): set<int> {
    set r | r in Range(0, h) && g * h + r in s
  }

  function Below(s: set<int>, bound: int): (b: set<int>)
    ensures |s| == |b| + |s - b|
    ensures forall x :: x in b <==> x in s && x < bound
  {
    var b := set x | x in s && x < bound;
    assert s == b + (s - b);
    b
  }

  lemma MulStep(m: nat, h: nat)
    requires 0 < m
    ensures m * h == (m - 1) * h + h
  {}

  ghost function SumTo(c: nat -> nat, m: nat): nat { if m == 0 then 0 else SumTo(c, m - 1) + c(m - 1) }

  lemma SumStep(c: nat -> nat, m: nat)
    ensures SumTo(c, m) == if m == 0 then 0 else SumTo(c, m - 1) + c(m - 1)
  {}

  lemma Nothing(s: set<int>, hi: int)
    requires hi <= 0 && forall x :: x in s ==> 0 <= x < hi
    ensures s == {}
  {
    assert forall x :: x !in s;
  }

  /** A set is as large as its blocks together. */
  lemma {:induction false} RowsTotal(s: set<int>, h: nat, m: nat, c: nat -> nat)
    requires forall x :: x in s ==> 0 <= x < m * h
    requires forall g: nat :: g < m ==> |Row(s, h, g)| == c(g)
    ensures |s| == SumTo(c, m)
    decreases m
  {
    hide Row, SumTo, Below;
    SumStep(c, m);
    if m == 0 {
      Nothing(s, m * h);
    } else {
      var rest := Below(s, (m - 1) * h);
      LastBlock(s, h, m);
      RowsBelow(s, rest, h, m, c);
      RowsTotal(rest, h, m - 1, c);
    }
  }

  /** The last block and everything below it. */
  lemma LastBlock(s: set<int>, h: nat, m: nat)
    requires 0 < m && forall x :: x in s ==> 0 <= x < m * h
    ensures |s| == |Below(s, (m - 1) * h)| + |Row(s, h, m - 1)|
  {
    hide Row, Below;
    var base := (m - 1) * h;
    MulStep(m, h);
    LastRow(s, s - Below(s, base), base, h, m - 1);
  }

  lemma RowsBelow(s: set<int>, rest: set<int>, h: nat, m: nat, c: nat -> nat)
    requires 0 < m && rest == Below(s, (m - 1) * h)
    requires forall g: nat :: g < m ==> |Row(s, h, g)| == c(g)
    ensures forall g: nat :: g < m - 1 ==> |Row(rest, h, g)| == c(g)
  {
    forall g: nat | g < m - 1 ensures |Row(rest, h, g)| == c(g) {
      EarlierRow(s, rest, h, m - 1, g);
    }
  }

  lemma {:induction false} ConstantSum(c: nat, m: nat)
    ensures SumTo((g: nat) => c, m) == m * c
  {
    if m > 0 {
      ConstantSum(c, m - 1);
      MulStep(m, c);
    }
  }

  /** A set whose m blocks of h integers hold c members each has m * c members. */
  lemma RowsCardinality(s: set<int>, h: nat, m: nat, c: nat)
    requires forall x :: x in s ==> 0 <= x < m * h
    requires forall g: nat :: g < m ==> |Row(s, h, g)| == c
    ensures |s| == m * c
  {
    hide Row, SumTo;
    RowsTotal(s, h, m, (g: nat) => c);
    ConstantSum(c, m);
  }

  lemma LastRow(s: set<int>, last: set<int>, base: nat, h: nat, g: nat)
    requires base == g * h
    requires forall x :: x in last <==> x in s && base <= x
    requires forall x :: x in s ==> x < base + h
    ensures |last| == |Row(s, h, g)|
  {
    hide Range;
    var shift := map r | r in Row(s, h, g) :: base + r;
    assert shift.Keys == Row(s, h, g);
    InjectiveCardinality(shift);
    forall x | x in last ensures x in shift.Values {
      assert shift[x - base] == x;
    }
    assert shift.Values == last;
  }

  lemma EarlierRow(s: set<int>, rest: set<int>, h: nat, m: nat, g: nat)
    requires g < m
    requires forall x :: x in rest <==> x in s && x < m * h
    ensures Row(rest, h, g) == Row(s, h, g)
  {
    hide Range;
    forall r | r in Range(0, h) ensures g * h + r < m * h { GridBound(g, r, h, m); }
  }
}
