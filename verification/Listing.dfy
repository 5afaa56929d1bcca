/** The full list of pairings and the executable per-index lookup, both against the same schedule. */
module Listing {
  import opened Options
  import opened Rng
  import opened Arith
  import opened Feistel
  import opened Pairs
  import opened Offsets
  import opened Schedule

  /** Keeps the pairs of the indices i, i + 1, ... that the permutation maps. */
  function CollectFrom(n: nat, k: nat, seed: Seed, i: nat): seq<Pair>
    requires Supported(n, k)
    decreases MatchCount(n, k) - i
  {
    var total := MatchCount(n, k);
    if i >= total then []
    else
      var rest := CollectFrom(n, k, seed, i + 1);
      match Permute(i, total, DeriveKeys(seed))
      case None => rest
      case Some(c) =>
        PermuteInjective(i, i, total, DeriveKeys(seed));
        [CanonicalPair(n, k, seed, c)] + rest
  }

  function GenerateAll(n: nat, k: nat, seed: Seed): seq<Pair>
    requires Servable(n, k)
  {
    if n < 2 || MatchCount(n, k) == 0 then [] else CollectFrom(n, k, seed, 0)
  }

  lemma {:induction false} CollectComplete(n: nat, k: nat, seed: Seed, i: nat)
    requires Supported(n, k) && Paired(n, k, seed, i, MatchCount(n, k)) && i <= MatchCount(n, k)
    ensures |CollectFrom(n, k, seed, i)| == MatchCount(n, k) - i
    ensures forall j :: i <= j < MatchCount(n, k) ==>
              GetPairing(n, k, seed, j) == Some(CollectFrom(n, k, seed, i)[j - i])
    decreases MatchCount(n, k) - i
  {
    hide Permute, CanonicalPair, MatchCount, DeriveKeys, Supported;
    if i < MatchCount(n, k) {
      assert GetPairing(n, k, seed, i).Some?;
      CollectComplete(n, k, seed, i + 1);
    }
  }

  /** Where every index has a pair the list drops nothing: its i-th element is the i-th lookup. */
  lemma ListMatchesLookup(n: nat, k: nat, seed: Seed)
    requires Supported(n, k) && AllPaired(n, k, seed)
    ensures |GenerateAll(n, k, seed)| == MatchCount(n, k)
    ensures forall i :: 0 <= i < MatchCount(n, k) ==>
              GetPairing(n, k, seed, i) == Some(GenerateAll(n, k, seed)[i])
  {
    hide CollectFrom, GetPairing, MatchCount;
    if 0 < MatchCount(n, k) {
      CollectComplete(n, k, seed, 0);
    }
  }

  /** Match counts of every configurable tournament fit 32 bits. */
  lemma MatchCountFits(n: nat, k: nat)
    requires n <= 65536 && k <= 65535
    ensures MatchCount(n, k) < U32_SIZE
  {
    if 2 <= n && 1 <= k {
      if n <= k + 1 {
        RoundRobinCountFits(n, k);
      } else {
        MulMonotone(OffsetsToUse(n, k), 32768, n);
      }
    }
  }

  lemma RoundRobinCountFits(n: nat, k: nat)
    requires 2 <= n <= k + 1 <= 65536
    ensures Triangle(n) * CeilDiv(k, n - 1) < U32_SIZE
  {
    hide Triangle;
    var t, c := Triangle(n), CeilDiv(k, n - 1);
    DivModIdentity(k, n - 1);
    assert c * (n - 1) < k + n - 1 by {
      assert (k / (n - 1) + 1) * (n - 1) == (k / (n - 1)) * (n - 1) + (n - 1);
    }
    TwiceProduct(t, c, n);
    MulMonotone(c * (n - 1), 131_069, n);
    MulMonotone(n, 65536, 131_069);
  }

  lemma TwiceProduct(t: nat, c: nat, n: nat)
    requires 1 <= n && 2 * t == n * (n - 1)
    ensures 2 * (t * c) == (c * (n - 1)) * n
  {
    assert 2 * (t * c) == (2 * t) * c;
    assert (n * (n - 1)) * c == (c * (n - 1)) * n;
  }

  /** Under the adaptive K every lookup of up to 65536 players stays within 32 bits. */
  lemma ScheduleFits(n: nat, configK: nat)
    requires 2 <= n <= 65536
    ensures MatchCount(n, EffectiveK(n, configK)) < U32_SIZE - 1
  {
    var k := EffectiveK(n, configK);
    if n <= 200 { TournamentSize(n, configK); } else { MulMonotone(OffsetsToUse(n, k), 50, n); }
  }

  lemma DrawStep(rng: SeededRng, n: nat)
    requires 0 < n
    ensures DrawKeys(rng, n) == [NextU64(rng).1] + DrawKeys(NextU64(rng).0, n - 1)
  {
    hide NextU64;
  }

  method DeriveFeistelKeys(seed: Seed) returns (keys: seq<nat>)
    ensures keys == DeriveKeys(seed)
  {
    hide NextU64, New, DrawKeys;
    var rng := New(seed, U32_SIZE - 1);
    keys := [];
    for i := 0 to ROUND_COUNT
      invariant |keys| == i
      invariant keys + DrawKeys(rng, ROUND_COUNT - i) == DeriveKeys(seed)
    {
      DrawStep(rng, ROUND_COUNT - i);
      var (next, key) := NextU64(rng);
      rng := next;
      keys := keys + [key];
    }
  }

  /** The on-chain lookup: permute, then unrank or read the sampled offsets. */
  method GetPairingForMatch(n: nat, k: nat, seed: Seed, idx: nat) returns (r: Option<Pair>)
    requires Servable(n, k) && n <= 65536 && MatchCount(n, k) < U32_SIZE - 1
    ensures r == GetPairing(n, k, seed, idx)
  {
    hide Permute, DeriveKeys, CanonicalPair;
    var total := MatchCount(n, k);
    if idx >= total {
      return None;
    }
    var keys := DeriveFeistelKeys(seed);
    var permuted := FeistelPermute(idx, total, keys);
    if permuted.None? {
      return None;
    }
    var c := permuted.value;
    PermuteInjective(idx, idx, total, keys);
    var p := ReadCanonical(n, k, seed, c);
    r := Some(p);
  }

  method ReadCanonical(n: nat, k: nat, seed: Seed, c: nat) returns (p: Pair)
    requires Supported(n, k) && n <= 65536 && c < MatchCount(n, k)
    ensures p == CanonicalPair(n, k, seed, c)
  {
    hide SelectOffsets, Triangle, Unrank, Quot, Rem;
    if n <= k + 1 {
      TriangleLimit(n);
      var a, b := UnrankPair(Rem(c, Triangle(n)));
      p := (a, b);
    } else {
      var offsets, count := ComputeOffsets(n, k, seed);
      OffsetsCorrect(n, k, seed);
      DivBelow(c, n, OffsetsToUse(n, k));
      assert offsets[..count][Quot(c, n)] == offsets[Quot(c, n)];
      var i := Rem(c, n);
      var j := Rem(i + offsets[Quot(c, n)], n);
      p := if i < j then (i, j) else (j, i);
    }
  }

  lemma TriangleLimit(n: nat)
    requires 2 <= n <= 65536
    ensures 0 < Triangle(n) <= RANK_LIMIT
  {
    MulMonotone(n, 65536, n - 1);
  }
}
