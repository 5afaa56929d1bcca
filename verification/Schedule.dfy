/** Which two players meet in match i: per-index lookup, full list, and who meets whom how often. */
module Schedule {
  import opened Options
  import opened Rng
  import opened Arith
  import opened Counting
  import opened Squares
  import opened Feistel
  import opened Pairs
  import opened Offsets

  function EffectiveK(n: nat, configK: nat): (k: nat)
    ensures 2 <= n <= 200 ==> n == k + 1
    ensures 200 < n ==> 49 <= k <= 99
    ensures 200 < n && 49 <= configK <= 99 ==> k == configK
    ensures 200 < n && configK < 49 ==> k == 49
    ensures 200 < n && 99 < configK ==> k == 99
    ensures n < 2 ==> k == 0
  {
    if n < 2 then 0
    else if n <= 200 then n - 1
    else if configK < 49 then 49
    else if configK > 99 then 99
    else configK
  }

  function CeilDiv(a: nat, b: nat): nat
    requires 0 < b
  {
    if a % b == 0 then a / b else a / b + 1
  }

  function MatchCount(n: nat, k: nat): nat {
    if n < 2 || k == 0 then 0
    else if n <= k + 1 then Triangle(n) * CeilDiv(k, n - 1)
    else OffsetsToUse(n, k) * n
  }

  /** The sizes the offset buffer can serve. */
  predicate Supported(n: nat, k: nat) {
    2 <= n && 1 <= k && (n > k + 1 ==> OffsetsToUse(n, k) <= MAX_OFFSETS)
  }

  /** ... together with the empty schedules. */
  predicate Servable(n: nat, k: nat) { n < 2 || k == 0 || Supported(n, k) }

  function RoundRobinPair(c: nat, n: nat): Pair
    requires 2 <= n
  {
    Unrank(Rem(c, Triangle(n)))
  }

  function CircularPair(c: nat, n: nat, offsets: seq<nat>): Pair
    requires 0 < n && Quot(c, n) < |offsets|
  {
    var i := Rem(c, n);
    var j := Rem(i + offsets[Quot(c, n)], n);
    if i < j then (i, j) else (j, i)
  }

  /** The pair at a canonical (unpermuted) index. */
  function CanonicalPair(n: nat, k: nat, seed: Seed, c: nat): Pair
    requires Supported(n, k) && c < MatchCount(n, k)
  {
    if n <= k + 1 then RoundRobinPair(c, n)
    else
      var offsets := SelectOffsets(n, k, seed);
      OffsetsCorrect(n, k, seed);
      DivBelow(c, n, |offsets|);
      CircularPair(c, n, offsets)
  }

  function GetPairing(n: nat, k: nat, seed: Seed, idx: nat): Option<Pair>
    requires Servable(n, k)
  {
    var total := MatchCount(n, k);
    if idx >= total then None
    else
      match Permute(idx, total, DeriveKeys(seed))
      case None => None
      case Some(c) =>
        PermuteInjective(idx, idx, total, DeriveKeys(seed));
        Some(CanonicalPair(n, k, seed, c))
  }

  predicate Involves(p: Option<Pair>, player: nat) {
    p.Some? && (p.value.0 == player || p.value.1 == player)
  }

  // ----- canonical pairs -----

  /** Two ordered players below n. */
  predicate Proper(p: Pair, n: nat) { p.0 < p.1 < n }

  lemma CircularProper(c: nat, n: nat, offsets: seq<nat>)
    requires 0 < n && Quot(c, n) < |offsets|
    requires 0 < 2 * offsets[Quot(c, n)] < n
    ensures Proper(CircularPair(c, n, offsets), n)
  {
    ModTwice(Rem(c, n) + offsets[Quot(c, n)], n);
  }

  lemma CanonicalProper(n: nat, k: nat, seed: Seed, c: nat)
    requires Supported(n, k) && c < MatchCount(n, k)
    ensures Proper(CanonicalPair(n, k, seed, c), n)
  {
    hide SelectOffsets;
    if n <= k + 1 {
      UnrankInRange(Rem(c, Triangle(n)), n);
    } else {
      var offsets := SelectOffsets(n, k, seed);
      OffsetsCorrect(n, k, seed);
      DivBelow(c, n, |offsets|);
      CircularProper(c, n, offsets);
    }
  }

  /** Whatever a lookup returns, in a schedule of any size, is two ordered players below n. */
  lemma LookupProper(n: nat, k: nat, seed: Seed, idx: nat)
    requires Servable(n, k) && GetPairing(n, k, seed, idx).Some?
    ensures Proper(GetPairing(n, k, seed, idx).value, n) && idx < MatchCount(n, k)
  {
    hide Permute, CanonicalPair, DeriveKeys;
    var total, keys := MatchCount(n, k), DeriveKeys(seed);
    PermuteInjective(idx, idx, total, keys);
    CanonicalProper(n, k, seed, Permute(idx, total, keys).value);
  }

  /** Every in-range lookup of a schedule of at most 250000 matches yields two distinct players. */
  lemma LookupTotal(n: nat, k: nat, seed: Seed, idx: nat)
    requires Supported(n, k) && idx < MatchCount(n, k) <= 250_000
    ensures GetPairing(n, k, seed, idx).Some? && Proper(GetPairing(n, k, seed, idx).value, n)
  {
    hide Permute, MatchCount, CanonicalPair, DeriveKeys;
    var total, keys := MatchCount(n, k), DeriveKeys(seed);
    PermuteTotal(idx, total, keys);
    PermuteInjective(idx, idx, total, keys);
    CanonicalProper(n, k, seed, Permute(idx, total, keys).value);
  }

  /** Every match index from lo to hi has a pair. */
  ghost predicate Paired(n: nat, k: nat, seed: Seed, lo: nat, hi: nat)
    requires Servable(n, k)
  {
    forall i: nat :: lo <= i < hi ==> GetPairing(n, k, seed, i).Some?
  }

  /** The whole schedule has its pairs: the walk never gives up. */
  ghost predicate AllPaired(n: nat, k: nat, seed: Seed)
    requires Servable(n, k)
  {
    Paired(n, k, seed, 0, MatchCount(n, k))
  }

  /** One sufficient condition: at most 250000 matches. */
  lemma SmallPaired(n: nat, k: nat, seed: Seed)
    requires Servable(n, k) && MatchCount(n, k) <= 250_000
    ensures AllPaired(n, k, seed)
  {
    hide GetPairing;
    forall i: nat | i < MatchCount(n, k) ensures GetPairing(n, k, seed, i).Some? {
      LookupTotal(n, k, seed, i);
    }
  }

  /** A weaker one: fewer than 1000 grid points beyond the number of matches. */
  lemma OverhangPaired(n: nat, k: nat, seed: Seed)
    requires Servable(n, k)
    requires CeilSqrt(MatchCount(n, k)) * CeilSqrt(MatchCount(n, k)) - MatchCount(n, k) < 1000
    ensures AllPaired(n, k, seed)
  {
    hide Permute, MatchCount, CanonicalPair, DeriveKeys, CeilSqrt;
    forall i: nat | i < MatchCount(n, k) ensures GetPairing(n, k, seed, i).Some? {
      PermuteTotalIfOverhangSmall(i, MatchCount(n, k), DeriveKeys(seed));
    }
  }

  /** The adaptive K serves fields of every size. */
  lemma EffectiveServable(n: nat, configK: nat)
    ensures Servable(n, EffectiveK(n, configK))
    ensures 2 <= n ==> Supported(n, EffectiveK(n, configK))
  {}

  /** Up to 5000 players under the adaptive K have all their pairs. */
  lemma TournamentPaired(n: nat, configK: nat, seed: Seed)
    requires 2 <= n <= 5000
    ensures Servable(n, EffectiveK(n, configK)) && AllPaired(n, EffectiveK(n, configK), seed)
  {
    hide EffectiveK, MatchCount, AllPaired;
    TournamentSize(n, configK);
    SmallPaired(n, EffectiveK(n, configK), seed);
  }

  /** Tournament sizes up to 5000 with the adaptive K stay within 250000 matches. */
  lemma TournamentSize(n: nat, configK: nat)
    requires 2 <= n <= 5000
    ensures Supported(n, EffectiveK(n, configK))
    ensures MatchCount(n, EffectiveK(n, configK)) <= 250_000
    ensures n <= 200 ==> MatchCount(n, EffectiveK(n, configK)) == Triangle(n)
  {
    var k := EffectiveK(n, configK);
    if n <= 200 {
      assert CeilDiv(k, n - 1) == 1;
      assert n * (n - 1) <= 200 * 199 by { MulMonotone(n, 200, n - 1); }
    } else {
      MulMonotone(OffsetsToUse(n, k), 50, n);
    }
  }

  lemma TournamentLookup(n: nat, configK: nat, seed: Seed, idx: nat)
    requires 2 <= n <= 5000
    requires idx < MatchCount(n, EffectiveK(n, configK))
    ensures Supported(n, EffectiveK(n, configK))
    ensures var r := GetPairing(n, EffectiveK(n, configK), seed, idx);
            r.Some? && Proper(r.value, n)
  {
    TournamentSize(n, configK);
    LookupTotal(n, EffectiveK(n, configK), seed, idx);
  }

  // ----- counting through the permutation -----

  /** The match indices whose pairing satisfies being in `pairs`. */
  ghost function IndicesOf(n: nat, k: nat, seed: Seed, pairs: iset<Pair>): (s: set<int>)
    requires Supported(n, k)
    ensures s <= Range(0, MatchCount(n, k))
  {
    set i | i in Range(0, MatchCount(n, k)) && GetPairing(n, k, seed, i).Some?
              && GetPairing(n, k, seed, i).value in pairs
  }

  ghost function CanonicalOf(n: nat, k: nat, seed: Seed, pairs: iset<Pair>): (s: set<int>)
    requires Supported(n, k)
    ensures s <= Range(0, MatchCount(n, k))
  {
    set c | c in Range(0, MatchCount(n, k)) && CanonicalPair(n, k, seed, c) in pairs
  }

  /** Looking up index i reads the canonical pair at the permuted index. */
  lemma LookupThroughMap(n: nat, k: nat, seed: Seed, i: nat)
    requires Supported(n, k) && i < MatchCount(n, k)
    requires i in PermuteMap(MatchCount(n, k), DeriveKeys(seed))
    ensures var c := PermuteMap(MatchCount(n, k), DeriveKeys(seed))[i];
            0 <= c < MatchCount(n, k) && GetPairing(n, k, seed, i) == Some(CanonicalPair(n, k, seed, c))
  {
    hide Permute, MatchCount, CanonicalPair, DeriveKeys, Range;
    PermuteInjective(i, i, MatchCount(n, k), DeriveKeys(seed));
  }

  lemma IndexMembership(n: nat, k: nat, seed: Seed, pairs: iset<Pair>, i: nat)
    requires Supported(n, k) && i < MatchCount(n, k)
    requires i in PermuteMap(MatchCount(n, k), DeriveKeys(seed))
    ensures i in IndicesOf(n, k, seed, pairs)
       <==> PermuteMap(MatchCount(n, k), DeriveKeys(seed))[i] in CanonicalOf(n, k, seed, pairs)
  {
    hide GetPairing, PermuteMap, MatchCount, CanonicalPair, DeriveKeys, Range;
    LookupThroughMap(n, k, seed, i);
  }

  lemma IndicesArePreimage(n: nat, k: nat, seed: Seed, pairs: iset<Pair>)
    requires Supported(n, k)
    requires PermuteMap(MatchCount(n, k), DeriveKeys(seed)).Keys == Range(0, MatchCount(n, k))
    ensures IndicesOf(n, k, seed, pairs)
         == Preimage(PermuteMap(MatchCount(n, k), DeriveKeys(seed)), CanonicalOf(n, k, seed, pairs))
  {
    hide IndicesOf, CanonicalOf, PermuteMap, MatchCount, DeriveKeys, Range;
    var m := PermuteMap(MatchCount(n, k), DeriveKeys(seed));
    var found, can := IndicesOf(n, k, seed, pairs), CanonicalOf(n, k, seed, pairs);
    forall i | i in m.Keys ensures i in found <==> m[i] in can {
      IndexMembership(n, k, seed, pairs, i);
    }
    SamePreimage(m, found, can);
  }

  lemma PairedIsTotal(n: nat, k: nat, seed: Seed)
    requires Supported(n, k) && AllPaired(n, k, seed)
    ensures forall i: nat :: i < MatchCount(n, k) ==> Permute(i, MatchCount(n, k), DeriveKeys(seed)).Some?
  {
    hide Permute, MatchCount, CanonicalPair, DeriveKeys;
    forall i: nat | i < MatchCount(n, k) ensures Permute(i, MatchCount(n, k), DeriveKeys(seed)).Some? {
      assert GetPairing(n, k, seed, i).Some?;
    }
  }

  /** Shuffling a schedule that has all its pairs changes nothing about how often a pair or a player occurs. */
  lemma ShuffleKeepsCounts(n: nat, k: nat, seed: Seed, pairs: iset<Pair>)
    requires Supported(n, k) && AllPaired(n, k, seed)
    ensures |IndicesOf(n, k, seed, pairs)| == |CanonicalOf(n, k, seed, pairs)|
  {
    hide IndicesOf, CanonicalOf, PermuteMap, MatchCount, DeriveKeys, Range, Preimage, Permutation, AllPaired, Permute;
    PairedIsTotal(n, k, seed);
    TotalIsPermutation(MatchCount(n, k), DeriveKeys(seed));
    IndicesArePreimage(n, k, seed, pairs);
    PermutedCount(PermuteMap(MatchCount(n, k), DeriveKeys(seed)), CanonicalOf(n, k, seed, pairs));
  }

  /** Where each match index that has a pair is sent. */
  ghost function SentTo(n: nat, k: nat, seed: Seed, pairs: iset<Pair>): (m: map<int, int>)
    requires Supported(n, k)
    ensures m.Keys == IndicesOf(n, k, seed, pairs)
  {
    map i | i in IndicesOf(n, k, seed, pairs) :: Permute(i, MatchCount(n, k), DeriveKeys(seed)).value as int
  }

  lemma SentToCanonical(n: nat, k: nat, seed: Seed, pairs: iset<Pair>, i: int, j: int)
    requires Supported(n, k) && i in IndicesOf(n, k, seed, pairs) && j in IndicesOf(n, k, seed, pairs)
    ensures SentTo(n, k, seed, pairs)[i] in CanonicalOf(n, k, seed, pairs)
    ensures SentTo(n, k, seed, pairs)[i] == SentTo(n, k, seed, pairs)[j] ==> i == j
  {
    hide Permute, MatchCount, CanonicalPair, DeriveKeys, Range, Supported;
    PermuteInjective(i, j, MatchCount(n, k), DeriveKeys(seed));
  }

  /** In a schedule of any size, even one whose walk gives up, no set of pairs occurs more often than canonically. */
  lemma ShuffleNeverAdds(n: nat, k: nat, seed: Seed, pairs: iset<Pair>)
    requires Supported(n, k)
    ensures |IndicesOf(n, k, seed, pairs)| <= |CanonicalOf(n, k, seed, pairs)|
  {
    hide IndicesOf, CanonicalOf, SentTo, MatchCount, Supported;
    var m := SentTo(n, k, seed, pairs);
    forall i, j | i in m && j in m ensures m[i] in CanonicalOf(n, k, seed, pairs) && (m[i] == m[j] ==> i == j) {
      SentToCanonical(n, k, seed, pairs, i, j);
    }
    InjectiveCardinality(m);
    SubsetCardinality(m.Values, CanonicalOf(n, k, seed, pairs));
  }

  lemma SamePreimage(m: map<int, int>, found: set<int>, can: set<int>)
    requires found <= m.Keys
    requires forall i :: i in m.Keys ==> (i in found <==> m[i] in can)
    ensures found == Preimage(m, can)
  {
    forall i ensures i in found <==> i in Preimage(m, can) {
      assert i in m.Keys ==> (i in found <==> m[i] in can);
    }
  }
}
