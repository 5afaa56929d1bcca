/** How many matches a slot really plays when matches drawn with a blank slot are skipped. */
module Turnout {
  import opened Rng
  import opened Arith
  import opened Counting
  import opened Pairs
  import opened Offsets
  import opened Schedule
  import opened Degrees
  import opened Game
  import opened Replays

  predicate InUse(f: Fixture, i: int) { 0 <= i < |f.slots| && f.slots[i].Some? }

  // ----- the fold counts contests -----

  /** The matches before m that slot p plays. */
  ghost function Contested(f: Fixture, m: nat, p: nat): set<int>
    requires f.Valid()
  {
    set i | i in Range(0, m) && Plays(f, i, p)
  }

  predicate Plays(f: Fixture, i: nat, p: nat)
    requires f.Valid()
  {
    Contest(f, i).Some? && Has(Contest(f, i).value, p)
  }

  lemma ContestedStep(f: Fixture, m: nat, p: nat)
    requires f.Valid()
    ensures |Contested(f, m + 1, p)| == |Contested(f, m, p)| + (if Plays(f, m, p) then 1 else 0)
  {
    hide Plays;
    if Plays(f, m, p) {
      assert Contested(f, m + 1, p) == Contested(f, m, p) + {m};
    } else {
      assert Contested(f, m + 1, p) == Contested(f, m, p);
    }
  }

  lemma AwardPlayed(f: Fixture, t: Tally, i: nat, p: nat)
    requires f.Valid() && Fits(t, f) && p < |f.slots|
    requires Contest(f, i).Some? ==> Contest(f, i).value.0 != Contest(f, i).value.1
    ensures Award(f, t, i).played[p] == t.played[p] + (if Plays(f, i, p) then 1 else 0)
  {
    hide GetPairing, MatchOf;
  }

  /** The match counter of a slot is exactly the number of its contests. */
  lemma {:induction false} PlayedExact(f: Fixture, m: nat, p: nat)
    requires f.Valid() && p < |f.slots|
    ensures Replay(f, m).played[p] == |Contested(f, m, p)|
  {
    hide Contest, Contested, Award, Plays;
    if m > 0 {
      PlayedExact(f, m - 1, p);
      ContestsProper(f, m);
      AwardPlayed(f, Replay(f, m - 1), m - 1, p);
      ContestedStep(f, m - 1, p);
    } else {
      NoneContested(f, p);
    }
  }

  lemma NoneContested(f: Fixture, p: nat)
    requires f.Valid()
    ensures Contested(f, 0, p) == {}
  {}

  /** The pairs of p in which both sides are in use. */
  ghost function Playable(f: Fixture, p: nat): iset<Pair> {
    iset q: Pair | Has(q, p) && InUse(f, q.0) && InUse(f, q.1)
  }

  lemma ContestedIsIndices(f: Fixture, p: nat)
    requires Supported(f.n, f.k)
    ensures Contested(f, MatchCount(f.n, f.k), p) == IndicesOf(f.n, f.k, f.seed, Playable(f, p))
  {
    hide GetPairing, MatchCount, Supported, Range;
  }

  /** Over a whole schedule a slot plays as often as its playable pairs occur canonically. */
  lemma PlayedIsCanonical(f: Fixture, p: nat)
    requires Supported(f.n, f.k) && AllPaired(f.n, f.k, f.seed) && p < |f.slots|
    ensures Replay(f, MatchCount(f.n, f.k)).played[p] == |CanonicalOf(f.n, f.k, f.seed, Playable(f, p))|
  {
    hide Replay, MatchCount, Contested, IndicesOf, CanonicalOf, Playable, AllPaired;
    PlayedExact(f, MatchCount(f.n, f.k), p);
    ContestedIsIndices(f, p);
    ShuffleKeepsCounts(f.n, f.k, f.seed, Playable(f, p));
  }

  // ----- round-robin: one match per opponent in use -----

  /** The slots below n, other than p, that are in use; nobody if p is not. */
  ghost function Opponents(f: Fixture, p: nat): set<int> {
    if InUse(f, p) then set q | q in Range(0, f.n) && q != p && InUse(f, q) else {}
  }

  lemma OpponentPlayable(f: Fixture, p: nat, q: nat)
    requires p < f.n && q in Opponents(f, p)
    ensures OpponentRank(p, q) in RanksIn(f.n, Playable(f, p))
  {
    hide Unrank, Rank, Triangle, Range;
    UnrankRank(Ordered(p, q));
    UnrankInRange(OpponentRank(p, q), f.n);
  }

  lemma PlayableOpponent(f: Fixture, p: nat, r: nat) returns (q: nat)
    requires p < f.n && r as int in RanksIn(f.n, Playable(f, p))
    ensures q in Opponents(f, p) && OpponentRank(p, q) == r
  {
    hide Unrank, OpponentRank, Triangle, Range;
    q := RankHasOpponent(f.n, p, r);
    OpponentOfRank(p, q, r);
  }

  lemma OpponentOfRank(p: nat, q: nat, r: nat)
    requires q != p && OpponentRank(p, q) == r
    ensures Unrank(r) == Ordered(p, q)
  {
    hide Unrank, Rank;
    UnrankRank(Ordered(p, q));
  }

  lemma PlayableRanks(f: Fixture, p: nat)
    requires p < f.n
    ensures |RanksIn(f.n, Playable(f, p))| == |Opponents(f, p)|
  {
    hide RanksIn, Playable, OpponentRank, Range;
    var m := map q | q in Opponents(f, p) :: OpponentRank(p, q);
    forall q, q' | q in m && q' in m && m[q] == m[q'] ensures q == q' {
      OpponentRankInjective(p, q, q');
    }
    InjectiveCardinality(m);
    assert m.Keys == Opponents(f, p);
    PlayableRankValues(f, p, m);
  }

  lemma PlayableRankValues(f: Fixture, p: nat, m: map<int, int>)
    requires p < f.n && m.Keys == Opponents(f, p)
    requires forall q: int :: q in m ==> 0 <= q && m[q] == OpponentRank(p, q)
    ensures m.Values == RanksIn(f.n, Playable(f, p))
  {
    hide RanksIn, Playable, OpponentRank, Opponents;
    RanksInNat(f.n, Playable(f, p));
    forall r | r in RanksIn(f.n, Playable(f, p)) ensures r in m.Values {
      var q := PlayableOpponent(f, p, r);
      assert m[q] == r;
    }
    forall q: int | q in m ensures m[q] in RanksIn(f.n, Playable(f, p)) {
      OpponentPlayable(f, p, q);
    }
  }

  /** In a round-robin a slot below n plays each opponent in use ceil(k / (n - 1)) times. */
  lemma RoundRobinTurnout(f: Fixture, p: nat)
    requires Supported(f.n, f.k) && f.n <= f.k + 1 && AllPaired(f.n, f.k, f.seed) && p < f.n && p < |f.slots|
    ensures Replay(f, MatchCount(f.n, f.k)).played[p] == CeilDiv(f.k, f.n - 1) * |Opponents(f, p)|
  {
    hide Replay, MatchCount, CanonicalOf, IndicesOf, Playable, RanksIn, Opponents, CeilDiv, AllPaired;
    PlayedIsCanonical(f, p);
    RoundRobinCount(f.n, f.k, f.seed, Playable(f, p));
    ShuffleKeepsCounts(f.n, f.k, f.seed, Playable(f, p));
    PlayableRanks(f, p);
  }

  // ----- circular: one match per neighbour in use -----

  /** The player d places after p on the cycle of n players. */
  function After(p: nat, d: nat, n: nat): nat
    requires p < n && 0 < 2 * d < n
  {
    if p + d < n then p + d else p + d - n
  }

  function One(b: bool): nat { if b then 1 else 0 }

  /** How many of the two neighbours at distance d slot p really meets. */
  function Meets(f: Fixture, p: nat, d: nat): nat {
    if p < f.n && 0 < 2 * d < f.n && InUse(f, p) then One(InUse(f, After(p, d, f.n))) + One(InUse(f, Before(p, d, f.n)))
    else 0
  }

  /** ... for the g-th sampled offset. */
  function MeetsAt(f: Fixture, p: nat, offsets: seq<nat>): nat -> nat {
    (g: nat) => if g < |offsets| then Meets(f, p, offsets[g]) else 0
  }

  /** The pair at position r of an offset group joins r with the player one offset after it. */
  lemma CircularSides(n: nat, offsets: seq<nat>, g: nat, r: nat)
    requires g < |offsets| && 0 < 2 * offsets[g] < n && r < n
    ensures Quot(g * n + r, n) == g
    ensures CircularPair(g * n + r, n, offsets) == Ordered(r, After(r, offsets[g], n))
  {
    DivModUnique(g, r, n);
    ModTwice(r + offsets[g], n);
  }

  lemma BeforeAfter(p: nat, d: nat, n: nat)
    requires p < n && 0 < 2 * d < n
    ensures Before(p, d, n) < n && After(p, d, n) < n && After(Before(p, d, n), d, n) == p
    ensures Before(p, d, n) != p && After(p, d, n) != p
    ensures forall r: nat :: r < n && After(r, d, n) == p ==> r == Before(p, d, n)
  {}

  lemma PlayableAt(f: Fixture, d: nat, r: nat, p: nat)
    requires 0 < 2 * d < f.n && r < f.n && p < f.n
    ensures Ordered(r, After(r, d, f.n)) in Playable(f, p) <==>
              && InUse(f, p)
              && (|| (r == p && InUse(f, After(p, d, f.n)))
                  || (r == Before(p, d, f.n) && InUse(f, Before(p, d, f.n))))
  {
    BeforeAfter(p, d, f.n);
    BeforeAfter(r, d, f.n);
    hide Before, After;
  }

  /** The positions of one offset group at which slot p plays. */
  ghost function PlayingAt(f: Fixture, p: nat, d: nat): set<int>
    requires p < f.n && 0 < 2 * d < f.n
  {
    if !InUse(f, p) then {}
    else
      var before := Before(p, d, f.n);
      (if InUse(f, After(p, d, f.n)) then {p} else {}) + (if InUse(f, before) then {before} else {})
  }

  lemma PlayingAtSize(f: Fixture, p: nat, d: nat)
    requires p < f.n && 0 < 2 * d < f.n
    ensures |PlayingAt(f, p, d)| == Meets(f, p, d)
  {
    BeforeAfter(p, d, f.n);
    hide Before, After, InUse;
  }

  /** The canonical pair at position r of the g-th offset group. */
  lemma CanonicalAt(n: nat, k: nat, seed: Seed, g: nat, r: nat, c: nat)
    requires Supported(n, k) && n > k + 1 && g < OffsetsToUse(n, k) && r < n && c == g * n + r
    ensures g < |SelectOffsets(n, k, seed)| && 0 < 2 * SelectOffsets(n, k, seed)[g] < n
    ensures c < MatchCount(n, k)
    ensures CanonicalPair(n, k, seed, c) == Ordered(r, After(r, SelectOffsets(n, k, seed)[g], n))
  {
    hide SelectOffsets, CircularPair, Ordered, After, Increasing;
    OffsetsCorrect(n, k, seed);
    GridBound(g, r, n, OffsetsToUse(n, k));
    CircularSides(n, SelectOffsets(n, k, seed), g, r);
  }

  lemma RowPosition(f: Fixture, g: nat, p: nat, r: nat)
    requires Supported(f.n, f.k) && f.n > f.k + 1 && p < f.n && g < OffsetsToUse(f.n, f.k) && r < f.n
    ensures g < |SelectOffsets(f.n, f.k, f.seed)| && 0 < 2 * SelectOffsets(f.n, f.k, f.seed)[g] < f.n
    ensures g * f.n + r in CanonicalOf(f.n, f.k, f.seed, Playable(f, p))
       <==> r in PlayingAt(f, p, SelectOffsets(f.n, f.k, f.seed)[g])
  {
    hide SelectOffsets, CanonicalPair, MatchCount, Playable, Ordered, InUse, After, Before, Supported, Range;
    CanonicalAt(f.n, f.k, f.seed, g, r, g * f.n + r);
    PlayableAt(f, SelectOffsets(f.n, f.k, f.seed)[g], r, p);
  }

  lemma CircularRowTurnout(f: Fixture, g: nat, p: nat)
    requires Supported(f.n, f.k) && f.n > f.k + 1 && p < f.n && g < OffsetsToUse(f.n, f.k)
    ensures |Row(CanonicalOf(f.n, f.k, f.seed, Playable(f, p)), f.n, g)|
         == MeetsAt(f, p, SelectOffsets(f.n, f.k, f.seed))(g)
  {
    hide Range, SelectOffsets, CanonicalOf, Playable, PlayingAt, Meets, Supported;
    RowPosition(f, g, p, p);
    var d := SelectOffsets(f.n, f.k, f.seed)[g];
    var row := Row(CanonicalOf(f.n, f.k, f.seed, Playable(f, p)), f.n, g);
    forall r | r in Range(0, f.n) ensures r in row <==> r in PlayingAt(f, p, d) {
      RowPosition(f, g, p, r);
    }
    PlayingAtRange(f, p, d);
    assert row == PlayingAt(f, p, d);
    PlayingAtSize(f, p, d);
  }

  lemma PlayingAtRange(f: Fixture, p: nat, d: nat)
    requires p < f.n && 0 < 2 * d < f.n
    ensures forall r :: r in PlayingAt(f, p, d) ==> 0 <= r < f.n
  {
    BeforeAfter(p, d, f.n);
  }

  /** In a circular schedule a slot below n plays each sampled neighbour in use once. */
  lemma CircularTurnout(f: Fixture, p: nat)
    requires Supported(f.n, f.k) && f.n > f.k + 1 && AllPaired(f.n, f.k, f.seed) && p < f.n && p < |f.slots|
    ensures Replay(f, MatchCount(f.n, f.k)).played[p]
         == SumTo(MeetsAt(f, p, SelectOffsets(f.n, f.k, f.seed)), OffsetsToUse(f.n, f.k))
  {
    hide Replay, CanonicalOf, Playable, Row, MeetsAt, SelectOffsets, AllPaired;
    var s, m := CanonicalOf(f.n, f.k, f.seed, Playable(f, p)), OffsetsToUse(f.n, f.k);
    PlayedIsCanonical(f, p);
    forall g: nat | g < m ensures |Row(s, f.n, g)| == MeetsAt(f, p, SelectOffsets(f.n, f.k, f.seed))(g) {
      CircularRowTurnout(f, g, p);
    }
    RowsTotal(s, f.n, m, MeetsAt(f, p, SelectOffsets(f.n, f.k, f.seed)));
  }

  // ----- full and empty turnout -----

  /** A slot at or above n plays nothing. */
  lemma NeverPlays(f: Fixture, m: nat, p: nat)
    requires f.Valid() && f.n <= p < |f.slots|
    ensures Replay(f, m).played[p] == 0
  {
    hide Replay, DrawnBefore, GetPairing, Contest, Contested;
    PlayedExact(f, m, p);
    NeverDrawn(f, m, p);
    ContestedDrawn(f, m, p);
  }

  lemma ContestedDrawn(f: Fixture, m: nat, p: nat)
    requires f.Valid()
    ensures Contested(f, m, p) <= DrawnBefore(f, m, p)
  {
    hide GetPairing, Range, Servable;
  }

  /** With every slot below n in use, each of them plays every match it is drawn in. */
  lemma FullTurnout(f: Fixture, p: nat)
    requires Supported(f.n, f.k) && p < f.n && forall i :: 0 <= i < f.n ==> InUse(f, i)
    ensures p < |f.slots|
    ensures Replay(f, MatchCount(f.n, f.k)).played[p] == |MatchesOf(f.n, f.k, f.seed, p)|
  {
    assert InUse(f, p);
    hide Replay, MatchCount, GetPairing, Range, Supported;
    PlayedExact(f, MatchCount(f.n, f.k), p);
    ContestedIsIndices(f, p);
    forall i | i in IndicesOf(f.n, f.k, f.seed, PairsOf(p)) ensures i in IndicesOf(f.n, f.k, f.seed, Playable(f, p)) {
      LookupProper(f.n, f.k, f.seed, i);
    }
    assert IndicesOf(f.n, f.k, f.seed, PairsOf(p)) == IndicesOf(f.n, f.k, f.seed, Playable(f, p));
  }
}
