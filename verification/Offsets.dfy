/** Floyd sampling of circular offsets, kept in a fixed 50-slot buffer sorted in place. */
module Offsets {
  import opened Rng

  const MAX_OFFSETS: nat := 50

  /** Offsets d with 0 < 2 * d < n. */
  function Available(n: nat): (m: nat)
    requires 1 <= n
    ensures forall d: nat :: d <= m <==> 2 * d < n
  {
    if n % 2 == 0 then n / 2 - 1 else n / 2
  }

  function HalfUp(k: nat): nat { (k + 1) / 2 }

  function OffsetsToUse(n: nat, k: nat): (m: nat)
    requires 1 <= n
    ensures m <= Available(n) && m <= HalfUp(k)
    ensures n >= k + 2 ==> m == HalfUp(k)
  {
    if HalfUp(k) <= Available(n) then HalfUp(k) else Available(n)
  }

  function SampleSize(n: nat, k: nat): (m: nat)
    requires 1 <= n
  {
    if OffsetsToUse(n, k) <= MAX_OFFSETS then OffsetsToUse(n, k) else MAX_OFFSETS
  }

  /** One draw per j: keep the drawn value unless already chosen, else keep j itself. */
  function Floyd(rng: SeededRng, j: nat, last: nat, chosen: seq<nat>): seq<nat>
    decreases last + 1 - j
  {
    if j > last then chosen
    else
      var (next, draw) := NextRange(rng, j);
      var t := draw + 1;
      Floyd(next, j + 1, last, chosen + [if t in chosen then j else t])
  }

  predicate Distinct(s: seq<nat>) {
    forall i, j :: 0 <= i < j < |s| ==> s[i] != s[j]
  }

  predicate Within(s: seq<nat>, hi: nat) {
    forall i :: 0 <= i < |s| ==> 1 <= s[i] <= hi
  }

  predicate Increasing(s: seq<nat>) {
    forall i, j :: 0 <= i < j < |s| ==> s[i] < s[j]
  }

  predicate Sorted(s: seq<nat>) {
    forall i, j :: 0 <= i < j < |s| ==> s[i] <= s[j]
  }

  /** Whatever the draws are, the sample stays distinct and grows by one element per step. */
  lemma {:induction false} FloydDistinct(rng: SeededRng, j: nat, last: nat, chosen: seq<nat>)
    requires 1 <= j && Distinct(chosen) && Within(chosen, j - 1) && j <= last + 1
    ensures var s := Floyd(rng, j, last, chosen);
            Distinct(s) && Within(s, last) && |s| == |chosen| + (last + 1 - j)
    decreases last + 1 - j
  {
    if j <= last {
      hide NextRange;
      var (next, draw) := NextRange(rng, j);
      var x := if draw + 1 in chosen then j else draw + 1;
      assert x !in chosen;
      FloydDistinct(next, j + 1, last, chosen + [x]);
    }
  }

  // ----- sorting -----

  function Insert(s: seq<nat>, x: nat): seq<nat> {
    if s == [] then [x]
    else if s[|s| - 1] <= x then s + [x]
    else Insert(s[..|s| - 1], x) + [s[|s| - 1]]
  }

  function Sort(s: seq<nat>): seq<nat> {
    if s == [] then [] else Insert(Sort(s[..|s| - 1]), s[|s| - 1])
  }

  lemma {:induction false} InsertMultiset(s: seq<nat>, x: nat)
    ensures multiset(Insert(s, x)) == multiset(s) + multiset{x}
  {
    if s != [] {
      var front, top := s[..|s| - 1], s[|s| - 1];
      assert s == front + [top];
      if top > x { InsertMultiset(front, x); }
    }
  }

  lemma {:induction false} InsertSorted(s: seq<nat>, x: nat)
    requires Sorted(s)
    ensures Sorted(Insert(s, x)) && |Insert(s, x)| > 0
    ensures Insert(s, x)[|Insert(s, x)| - 1] == if s == [] || s[|s| - 1] <= x then x else s[|s| - 1]
  {
    if s != [] && s[|s| - 1] > x {
      InsertSorted(s[..|s| - 1], x);
    }
  }

  lemma {:induction false} SortIsSorted(s: seq<nat>)
    ensures Sorted(Sort(s))
  {
    if s != [] {
      hide Insert, Sorted;
      var front, top := s[..|s| - 1], s[|s| - 1];
      SortIsSorted(front);
      InsertSorted(Sort(front), top);
    }
  }

  lemma {:induction false} SortIsPermutation(s: seq<nat>)
    ensures multiset(Sort(s)) == multiset(s)
  {
    if s != [] {
      hide Insert;
      var front, top := s[..|s| - 1], s[|s| - 1];
      SortIsPermutation(front);
      InsertMultiset(Sort(front), top);
      assert s == front + [top];
    }
  }

  /** A sequence with the same elements as a distinct one is distinct. */
  lemma {:induction false} DistinctMultiplicity(s: seq<nat>)
    ensures Distinct(s) <==> forall x :: x in multiset(s) ==> multiset(s)[x] == 1
  {
    if s != [] {
      var front, top := s[..|s| - 1], s[|s| - 1];
      assert s == front + [top];
      DistinctMultiplicity(front);
      assert multiset(s) == multiset(front) + multiset{top};
      if Distinct(s) {
        assert top !in front;
      } else if Distinct(front) {
        assert top in front;
        assert multiset(s)[top] == 2;
      } else {
        var x :| x in multiset(front) && multiset(front)[x] != 1;
        assert multiset(s)[x] != 1;
      }
    }
  }

  /** The sampled offsets in increasing order. */
  function SelectOffsets(n: nat, k: nat, seed: Seed): seq<nat>
    requires 1 <= n
  {
    var last := Available(n);
    Sort(Floyd(New(seed, 0), last + 1 - SampleSize(n, k), last, []))
  }

  /** For every generator state: the sample size is met, in strictly increasing order, within range. */
  lemma OffsetsCorrect(n: nat, k: nat, seed: Seed)
    requires 1 <= n
    ensures var s := SelectOffsets(n, k, seed);
            |s| == SampleSize(n, k) && Increasing(s) && forall i :: 0 <= i < |s| ==> 0 < 2 * s[i] < n
  {
    hide Floyd, Sort, New;
    var last := Available(n);
    var f := Floyd(New(seed, 0), last + 1 - SampleSize(n, k), last, []);
    FloydDistinct(New(seed, 0), last + 1 - SampleSize(n, k), last, []);
    SortIsSorted(f);
    SortIsPermutation(f);
    SortedDistinctIncreases(f, Sort(f), last);
  }

  lemma SortedDistinctIncreases(f: seq<nat>, s: seq<nat>, last: nat)
    requires Distinct(f) && Within(f, last)
    requires Sorted(s) && multiset(s) == multiset(f)
    ensures |s| == |f| && Increasing(s) && Within(s, last)
  {
    assert |multiset(s)| == |multiset(f)|;
    DistinctMultiplicity(f);
    DistinctMultiplicity(s);
    forall i | 0 <= i < |s| ensures 1 <= s[i] <= last {
      assert s[i] in multiset(f);
    }
  }

  lemma InsertShift(s: seq<nat>, p: nat, x: nat)
    requires 0 < p <= |s| && s[p - 1] > x
    ensures Insert(s[..p], x) + s[p..] == Insert(s[..p - 1], x) + s[p - 1..]
  {
    assert s[..p][..p - 1] == s[..p - 1];
  }

  lemma InsertTop(s: seq<nat>, p: nat, x: nat)
    requires p <= |s| && (p == 0 || s[p - 1] <= x)
    ensures Insert(s[..p], x) == s[..p] + [x]
  {}

  /** Moves a[i] down into the sorted slots before it. */
  method InsertInPlace(a: array<nat>, i: nat)
    requires i < a.Length
    modifies a
    ensures a[..i + 1] == Insert(old(a[..i]), old(a[i]))
    ensures forall q :: i < q < a.Length ==> a[q] == old(a[q])
  {
    hide Insert;
    ghost var done := a[..i];
    var x := a[i];
    var p := i;
    assert done[..i] == done && done[i..] == [];
    while p > 0 && a[p - 1] > x
      invariant p <= i
      invariant Insert(done, x) == Insert(done[..p], x) + done[p..]
      invariant forall q :: 0 <= q < p ==> a[q] == done[q]
      invariant forall q :: p < q <= i ==> a[q] == done[q - 1]
      invariant forall q :: i < q < a.Length ==> a[q] == old(a[q])
    {
      InsertShift(done, p, x);
      a[p] := a[p - 1];
      p := p - 1;
    }
    InsertTop(done, p, x);
    a[p] := x;
    assert a[..i + 1] == done[..p] + [x] + done[p..];
  }

  /** Insertion sort of the first `count` slots, standing in for the library's in-place sort. */
  method SortPrefix(a: array<nat>, count: nat)
    requires count <= a.Length
    modifies a
    ensures a[..count] == Sort(old(a[..count]))
  {
    ghost var s := a[..count];
    for i := 0 to count
      invariant a[..i] == Sort(s[..i])
      invariant forall q :: i <= q < count ==> a[q] == s[q]
    {
      assert s[..i + 1][..i] == s[..i];
      InsertInPlace(a, i);
    }
    assert s[..count] == s;
  }

  /** Samples into the 50-slot buffer exactly as many offsets as the schedule uses, up to the buffer size. */
  method ComputeOffsets(n: nat, k: nat, seed: Seed) returns (result: array<nat>, count: nat)
    requires 1 <= n
    ensures result.Length == MAX_OFFSETS && count <= MAX_OFFSETS && fresh(result)
    ensures result[..count] == SelectOffsets(n, k, seed)
  {
    hide NextRange, New, Sort;
    var last := Available(n);
    var m := SampleSize(n, k);
    var rng := New(seed, 0);
    result := new nat[MAX_OFFSETS](_ => 0);
    count := 0;
    ghost var first := last + 1 - m;
    for j := last + 1 - m to last + 1
      invariant count == j - first
      invariant Floyd(New(seed, 0), first, last, []) == Floyd(rng, j, last, result[..count])
    {
      var (next, draw) := NextRange(rng, j);
      rng := next;
      var t := draw + 1;
      var found := false;
      for i := 0 to count
        invariant !found ==> t !in result[..i]
        invariant found ==> t in result[..count]
      {
        if result[i] == t {
          found := true;
          break;
        }
      }
      ghost var before := result[..count];
      result[count] := if found then j else t;
      count := count + 1;
      assert result[..count] == before + [result[count - 1]];
    }
    SortPrefix(result, count);
  }

  // ----- every set of offsets can be drawn -----

  /** The sampling on given draws instead of a generator. */
  function FloydOn(draws: seq<nat>, j: nat, chosen: seq<nat>): seq<nat>
    decreases |draws|
  {
    if draws == [] then chosen
    else FloydOn(draws[1..], j + 1, chosen + [if draws[0] + 1 in chosen then j else draws[0] + 1])
  }

  /** The draws the generator makes for j, j + 1, ... up to last. */
  function DrawsFrom(rng: SeededRng, j: nat, last: nat): (draws: seq<nat>)
    ensures |draws| == if j > last then 0 else last + 1 - j
    decreases last + 1 - j
  {
    if j > last then []
    else
      var (next, draw) := NextRange(rng, j);
      [draw] + DrawsFrom(next, j + 1, last)
  }

  /** The sample is a function of the draws alone, one below each j. */
  lemma {:induction false} FloydFollowsDraws(rng: SeededRng, j: nat, last: nat, chosen: seq<nat>)
    requires 1 <= j
    ensures Floyd(rng, j, last, chosen) == FloydOn(DrawsFrom(rng, j, last), j, chosen)
    ensures forall i :: 0 <= i < |DrawsFrom(rng, j, last)| ==> DrawsFrom(rng, j, last)[i] < j + i
    decreases last + 1 - j
  {
    hide NextRange;
    if j <= last {
      var (next, draw) := NextRange(rng, j);
      FloydFollowsDraws(next, j + 1, last, chosen + [if draw + 1 in chosen then j else draw + 1]);
      assert ([draw] + DrawsFrom(next, j + 1, last))[1..] == DrawsFrom(next, j + 1, last);
    }
  }

  lemma {:induction false} FloydOnSnoc(draws: seq<nat>, d: nat, j: nat, chosen: seq<nat>)
    ensures var c := FloydOn(draws, j, chosen);
            FloydOn(draws + [d], j, chosen) == c + [if d + 1 in c then j + |draws| else d + 1]
    decreases |draws|
  {
    if draws == [] {
      assert [d][1..] == [];
    } else {
      FloydOnSnoc(draws[1..], d, j + 1, chosen + [if draws[0] + 1 in chosen then j else draws[0] + 1]);
      assert (draws + [d])[1..] == draws[1..] + [d];
    }
  }

  function Members(s: seq<nat>): set<nat> { set x | x in s }

  /** Floyd's sampling is onto: every set of m offsets up to last comes from some draws within their ranges. */
  lemma {:induction false} FloydReaches(m: nat, last: nat, target: set<nat>) returns (draws: seq<nat>)
    requires |target| == m <= last && forall x :: x in target ==> 1 <= x <= last
    ensures |draws| == m && forall i :: 0 <= i < m ==> draws[i] < last - m + 1 + i
    ensures Members(FloydOn(draws, last - m + 1, [])) == target
  {
    if m == 0 {
      draws := [];
      assert target == {};
    } else {
      var t := if last in target then last else AnyOf(target);
      var rest := target - {t};
      assert forall x :: x in rest ==> x <= last - 1;
      var before := FloydReaches(m - 1, last - 1, rest);
      draws := before + [t - 1];
      FloydOnSnoc(before, t - 1, last - m + 1, []);
      var c := FloydOn(before, last - m + 1, []);
      assert t in c <==> t in Members(c);
      assert Members(c + [t]) == Members(c) + {t};
    }
  }

  /** The offsets of a schedule are the sample of the seed's stream 0. */
  lemma OffsetsFromStream(n: nat, k: nat, seed: Seed)
    requires 1 <= n
    ensures var last, m := Available(n), SampleSize(n, k);
            && m <= last
            && var sample := FloydOn(DrawsFrom(New(seed, 0), last + 1 - m, last), last + 1 - m, []);
               multiset(SelectOffsets(n, k, seed)) == multiset(sample)
  {
    hide Floyd, New, Sort, FloydOn, DrawsFrom;
    var last, m := Available(n), SampleSize(n, k);
    FloydFollowsDraws(New(seed, 0), last + 1 - m, last, []);
    SortIsPermutation(Floyd(New(seed, 0), last + 1 - m, last, []));
  }

  ghost function AnyOf(s: set<nat>): (x: nat)
    requires s != {}
    ensures x in s
  {
    var x :| x in s;
    x
  }
}
