/** How often each player and each pair occurs in the permuted schedule. */
module Degrees {
  import opened Rng
  import opened Arith
  import opened Counting
  import opened Feistel
  import opened Pairs
  import opened Offsets
  import opened Schedule

  predicate Has(q: Pair, player: nat) { q.0 == player || q.1 == player }

  ghost function PairsOf(player: nat): iset<Pair> { iset q: Pair | Has(q, player) }

  /** The match indices in which `player` takes part. */
  ghost function MatchesOf(n: nat, k: nat, seed: Seed, player: nat): set<int>
    requires Supported(n, k)
  {
    IndicesOf(n, k, seed, PairsOf(player))
  }

  // ----- circular mode -----

  /** The player d places before `p` on the cycle of n players. */
  function Before(p: nat, d: nat, n: nat): nat
    requires p < n && 0 < 2 * d < n
  {
    if d <= p then p - d else p + n - d
  }

  /** In the group of one offset, a player meets exactly the players one offset ahead and behind. */
  lemma CircularGroup(n: nat, offsets: seq<nat>, g: nat, r: nat, p: nat)
    requires g < |offsets| && 0 < 2 * offsets[g] < n && r < n && p < n
    ensures Quot(g * n + r, n) == g
    ensures Has(CircularPair(g * n + r, n, offsets), p) <==> r == p || r == Before(p, offsets[g], n)
  {
    DivModUnique(g, r, n);
    ModTwice(r + offsets[g], n);
  }

  lemma CircularRow(n: nat, k: nat, seed: Seed, g: nat, p: nat)
    requires Supported(n, k) && n > k + 1 && p < n && g < OffsetsToUse(n, k)
    ensures |Row(CanonicalOf(n, k, seed, PairsOf(p)), n, g)| == 2
  {
    hide Range, SelectOffsets, CircularPair, Has;
    var offsets := SelectOffsets(n, k, seed);
    OffsetsCorrect(n, k, seed);
    var q := Before(p, offsets[g], n);
    var s := CanonicalOf(n, k, seed, PairsOf(p));
    forall r | r in Range(0, n) ensures r in Row(s, n, g) <==> r in {p, q} {
      GridBound(g, r, n, OffsetsToUse(n, k));
      CircularGroup(n, offsets, g, r, p);
    }
    assert Row(s, n, g) == {p, q};
  }

  lemma CircularCanonicalDegree(n: nat, k: nat, seed: Seed, p: nat)
    requires Supported(n, k) && n > k + 1 && p < n
    ensures |CanonicalOf(n, k, seed, PairsOf(p))| == 2 * HalfUp(k)
  {
    hide CanonicalOf, PairsOf, Row;
    var s := CanonicalOf(n, k, seed, PairsOf(p));
    forall g: nat | g < OffsetsToUse(n, k) ensures |Row(s, n, g)| == 2 {
      CircularRow(n, k, seed, g, p);
    }
    RowsCardinality(s, n, OffsetsToUse(n, k), 2);
  }

  /** Every player of a circular schedule takes part in exactly 2 * ceil(k / 2) matches. */
  lemma CircularDegree(n: nat, k: nat, seed: Seed, p: nat)
    requires Supported(n, k) && n > k + 1 && p < n && AllPaired(n, k, seed)
    ensures |MatchesOf(n, k, seed, p)| == 2 * HalfUp(k)
  {
    hide CanonicalOf, IndicesOf, PairsOf, MatchCount, Supported, AllPaired;
    CircularCanonicalDegree(n, k, seed, p);
    ShuffleKeepsCounts(n, k, seed, PairsOf(p));
  }

  /** Equal unordered pairs come from the same offset group and the same position in it. */
  lemma CircularPairInjective(n: nat, offsets: seq<nat>, c: nat, c': nat)
    requires 0 < n && Quot(c, n) < |offsets| && Quot(c', n) < |offsets|
    requires Increasing(offsets) && 0 < 2 * offsets[Quot(c, n)] < n && 0 < 2 * offsets[Quot(c', n)] < n
    requires CircularPair(c, n, offsets) == CircularPair(c', n, offsets)
    ensures Quot(c, n) == Quot(c', n) && Rem(c, n) == Rem(c', n)
  {
    hide Quot, Rem;
    var g, r, g', r' := Quot(c, n), Rem(c, n), Quot(c', n), Rem(c', n);
    ModTwice(r + offsets[g], n);
    ModTwice(r' + offsets[g'], n);
    assert offsets[g] == offsets[g'];
  }

  lemma CanonicalIsCircular(n: nat, k: nat, seed: Seed, c: nat)
    requires Supported(n, k) && n > k + 1 && c < MatchCount(n, k)
    ensures var offsets := SelectOffsets(n, k, seed);
            && Quot(c, n) < |offsets| && Increasing(offsets) && 0 < 2 * offsets[Quot(c, n)] < n
            && CanonicalPair(n, k, seed, c) == CircularPair(c, n, offsets)
  {
    hide SelectOffsets, CircularPair;
    OffsetsCorrect(n, k, seed);
    DivBelow(c, n, OffsetsToUse(n, k));
  }

  lemma CanonicalCircularInjective(n: nat, k: nat, seed: Seed, c: nat, c': nat)
    requires Supported(n, k) && n > k + 1 && c < MatchCount(n, k) && c' < MatchCount(n, k)
    requires CanonicalPair(n, k, seed, c) == CanonicalPair(n, k, seed, c')
    ensures c == c'
  {
    hide SelectOffsets, CircularPair, CanonicalPair, MatchCount, Supported, Increasing;
    CanonicalIsCircular(n, k, seed, c);
    CanonicalIsCircular(n, k, seed, c');
    CircularPairInjective(n, SelectOffsets(n, k, seed), c, c');
    DivModIdentity(c, n);
    DivModIdentity(c', n);
  }

  /** No two matches of a circular schedule, whatever its size, pair the same two players. */
  lemma CircularNoRepeat(n: nat, k: nat, seed: Seed, i: nat, j: nat)
    requires Supported(n, k) && n > k + 1 && i < j < MatchCount(n, k)
    requires GetPairing(n, k, seed, i).Some?
    ensures GetPairing(n, k, seed, i) != GetPairing(n, k, seed, j)
  {
    hide Permute, CanonicalPair, DeriveKeys, MatchCount, Supported;
    var total, keys := MatchCount(n, k), DeriveKeys(seed);
    if GetPairing(n, k, seed, j).Some? {
      PermuteInjective(i, j, total, keys);
      PermuteInjective(j, i, total, keys);
      var c, c' := Permute(i, total, keys).value, Permute(j, total, keys).value;
      if CanonicalPair(n, k, seed, c) == CanonicalPair(n, k, seed, c') {
        CanonicalCircularInjective(n, k, seed, c, c');
      }
    }
  }

  // ----- round-robin mode -----

  /** The ranks below C(n, 2) whose pair lies in `pairs`. */
  ghost function RanksIn(n: nat, pairs: iset<Pair>): (s: set<int>) {
    set r | r in Range(0, Triangle(n)) && Unrank(r) in pairs
  }

  /** The canonical pair at position r of the g-th round of all pairs is the pair of rank r. */
  lemma RoundRobinAt(n: nat, k: nat, seed: Seed, g: nat, r: nat, c: nat)
    requires Supported(n, k) && n <= k + 1 && g < CeilDiv(k, n - 1) && r < Triangle(n) && c == g * Triangle(n) + r
    ensures c < MatchCount(n, k) && CanonicalPair(n, k, seed, c) == Unrank(r)
  {
    hide Triangle, Unrank, CeilDiv;
    MulCommutes(Triangle(n), CeilDiv(k, n - 1));
    GridBound(g, r, Triangle(n), CeilDiv(k, n - 1));
    DivModUnique(g, r, Triangle(n));
  }

  lemma RoundRobinRow(n: nat, k: nat, seed: Seed, pairs: iset<Pair>, g: nat)
    requires Supported(n, k) && n <= k + 1 && g < CeilDiv(k, n - 1)
    ensures Row(CanonicalOf(n, k, seed, pairs), Triangle(n), g) == RanksIn(n, pairs)
  {
    hide Range, Triangle, Unrank, CanonicalPair, MatchCount, CeilDiv, Supported;
    var t := Triangle(n);
    var s := CanonicalOf(n, k, seed, pairs);
    forall r | r in Range(0, t) ensures r in Row(s, t, g) <==> Unrank(r) in pairs {
      RoundRobinAt(n, k, seed, g, r, g * t + r);
    }
  }

  /** In a round-robin schedule the pairs of a set occur ceil(k / (n - 1)) times as often as there are such pairs. */
  lemma RoundRobinCount(n: nat, k: nat, seed: Seed, pairs: iset<Pair>)
    requires Supported(n, k) && n <= k + 1 && AllPaired(n, k, seed)
    ensures |IndicesOf(n, k, seed, pairs)| == CeilDiv(k, n - 1) * |RanksIn(n, pairs)|
  {
    hide Range, Triangle, RanksIn, CanonicalOf, IndicesOf, Row, CeilDiv;
    var t, m := Triangle(n), CeilDiv(k, n - 1);
    var s := CanonicalOf(n, k, seed, pairs);
    forall g: nat | g < m ensures |Row(s, t, g)| == |RanksIn(n, pairs)| {
      RoundRobinRow(n, k, seed, pairs, g);
    }
    MulCommutes(t, m);
    RowsCardinality(s, t, m, |RanksIn(n, pairs)|);
    ShuffleKeepsCounts(n, k, seed, pairs);
  }

  lemma SingleRank(n: nat, p: Pair)
    requires Proper(p, n)
    ensures RanksIn(n, iset{p}) == {Rank(p)}
  {
    hide Triangle, Unrank, Rank, Range;
    UnrankRank(p);
    UnrankInRange(Rank(p), n);
  }

  /** Every unordered pair of players occurs exactly ceil(k / (n - 1)) times. */
  lemma RoundRobinPairCount(n: nat, k: nat, seed: Seed, p: Pair)
    requires Supported(n, k) && n <= k + 1 && AllPaired(n, k, seed) && Proper(p, n)
    ensures |IndicesOf(n, k, seed, iset{p})| == CeilDiv(k, n - 1)
  {
    hide RanksIn, CeilDiv, IndicesOf, MatchCount, Supported;
    RoundRobinCount(n, k, seed, iset{p});
    SingleRank(n, p);
  }

  function Ordered(a: nat, b: nat): Pair { if a < b then (a, b) else (b, a) }

  function OpponentRank(p: nat, q: nat): int { Rank(Ordered(p, q)) }

  lemma OpponentRankInjective(p: nat, q: nat, q': nat)
    requires q != p && q' != p && OpponentRank(p, q) == OpponentRank(p, q')
    ensures q == q'
  {
    hide Unrank, Rank;
    UnrankRank(Ordered(p, q));
    UnrankRank(Ordered(p, q'));
  }

  lemma OpponentRankMember(n: nat, p: nat, q: nat)
    requires p < n && q < n && q != p
    ensures OpponentRank(p, q) in RanksIn(n, PairsOf(p))
  {
    hide Unrank, Rank, Triangle;
    UnrankRank(Ordered(p, q));
    UnrankInRange(OpponentRank(p, q), n);
  }

  lemma RankHasOpponent(n: nat, p: nat, r: nat) returns (q: nat)
    requires p < n && r as int in RanksIn(n, PairsOf(p))
    ensures q < n && q != p && OpponentRank(p, q) == r
  {
    hide Unrank, Rank, Triangle;
    var u := Unrank(r);
    UnrankInRange(r, n);
    q := if u.0 == p then u.1 else u.0;
  }

  /** A player belongs to n - 1 of the pairs below n. */
  lemma PairsOfCardinality(n: nat, p: nat)
    requires p < n
    ensures |RanksIn(n, PairsOf(p))| == n - 1
  {
    hide RanksIn, PairsOf, OpponentRank, Range;
    var others := Range(0, n) - {p};
    var m := map q | q in others :: OpponentRank(p, q);
    forall q, q' | q in m && q' in m && m[q] == m[q'] ensures q == q' {
      OpponentRankInjective(p, q, q');
    }
    InjectiveCardinality(m);
    assert m.Keys == others && Range(0, n) == others + {p};
    OpponentRanks(n, p, m);
  }

  lemma RanksInNat(n: nat, pairs: iset<Pair>)
    ensures forall r :: r in RanksIn(n, pairs) ==> 0 <= r
  {}

  lemma OpponentRanks(n: nat, p: nat, m: map<int, int>)
    requires p < n && m.Keys == Range(0, n) - {p}
    requires forall q :: q in m ==> m[q] == OpponentRank(p, q)
    ensures m.Values == RanksIn(n, PairsOf(p))
  {
    hide RanksIn, PairsOf, OpponentRank, Range;
    RanksInNat(n, PairsOf(p));
    forall r | r in RanksIn(n, PairsOf(p)) ensures r in m.Values {
      var q := RankHasOpponent(n, p, r);
      assert m[q] == r;
    }
    forall r | r in m.Values ensures r in RanksIn(n, PairsOf(p)) {
      var q :| q in m && m[q] == r;
      OpponentRankMember(n, p, q);
    }
  }

  lemma CeilDivBounds(k: nat, d: nat)
    requires 0 < d
    ensures k <= CeilDiv(k, d) * d < k + d
  {
    DivModIdentity(k, d);
    assert (k / d + 1) * d == (k / d) * d + d;
  }

  /** Every player of a round-robin schedule plays everyone else ceil(k / (n - 1)) times: at least k matches. */
  lemma RoundRobinDegree(n: nat, k: nat, seed: Seed, p: nat)
    requires Supported(n, k) && n <= k + 1 && AllPaired(n, k, seed) && p < n
    ensures |MatchesOf(n, k, seed, p)| == CeilDiv(k, n - 1) * (n - 1)
    ensures k <= CeilDiv(k, n - 1) * (n - 1) < k + n - 1
  {
    hide RanksIn, IndicesOf, PairsOf, MatchCount, CeilDiv;
    RoundRobinCount(n, k, seed, PairsOf(p));
    PairsOfCardinality(n, p);
    CeilDivBounds(k, n - 1);
  }

  /** Under the adaptive K, in a schedule of any size that has all its pairs, the degrees are exact. */
  lemma TournamentDegree(n: nat, configK: nat, seed: Seed, p: nat)
    requires 2 <= n && p < n && Servable(n, EffectiveK(n, configK)) && AllPaired(n, EffectiveK(n, configK), seed)
    ensures Supported(n, EffectiveK(n, configK))
    ensures |MatchesOf(n, EffectiveK(n, configK), seed, p)|
         == if n <= 200 then n - 1 else 2 * HalfUp(EffectiveK(n, configK))
    ensures |MatchesOf(n, EffectiveK(n, configK), seed, p)| <= 199
  {
    hide MatchesOf, MatchCount, AllPaired;
    var k := EffectiveK(n, configK);
    if n <= 200 {
      RoundRobinDegree(n, k, seed, p);
      assert CeilDiv(k, n - 1) == 1;
    } else {
      CircularDegree(n, k, seed, p);
    }
  }

  /** Above 200 players a configured K from 49 to 99 is honoured, rounded up to an even number of matches each. */
  lemma ConfiguredDegree(n: nat, configK: nat, seed: Seed, p: nat)
    requires 200 < n && p < n && 49 <= configK <= 99
    requires Servable(n, configK) && AllPaired(n, configK, seed)
    ensures Supported(n, configK) && |MatchesOf(n, configK, seed, p)| == 2 * HalfUp(configK)
    ensures |MatchesOf(n, EffectiveK(n, configK), seed, p)| == if configK % 2 == 0 then configK else configK + 1
  {
    hide MatchesOf, MatchCount, AllPaired;
    TournamentDegree(n, configK, seed, p);
  }

  /** ... and in a tournament of any size, where the walk may give up, still no more than 199. */
  lemma DegreeAtMost(n: nat, configK: nat, seed: Seed, p: nat)
    requires 2 <= n && p < n
    ensures Supported(n, EffectiveK(n, configK)) && |MatchesOf(n, EffectiveK(n, configK), seed, p)| <= 199
  {
    hide IndicesOf, CanonicalOf, PairsOf, MatchCount, AllPaired;
    var k := EffectiveK(n, configK);
    if n <= 200 {
      TournamentPaired(n, configK, seed);
      TournamentDegree(n, configK, seed, p);
    } else {
      CircularCanonicalDegree(n, k, seed, p);
      ShuffleNeverAdds(n, k, seed, PairsOf(p));
    }
  }
}
