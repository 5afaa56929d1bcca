/** Playing the schedule: one fold over match indices, whatever the batches it is cut into. */
module Replays {
  import opened Options
  import opened Rng
  import opened Counting
  import opened Pairs
  import opened Schedule
  import opened Degrees
  import opened Strategies
  import opened Game
  import opened Laws
  import opened Accounts

  const MAX_MATCH_SCORE: nat := 250

  function ToPlayer(e: Entry): Player {
    match e.choice
    case CustomCode => Custom(e.bytecode)
    case Standard(base) => Builtin(base)
  }

  /** What decides every match: who sits in which slot, and the schedule's parameters. */
  datatype Fixture = Fixture(slots: seq<Option<Player>>, n: nat, k: nat, seed: Seed) {
    predicate Valid() { Servable(n, k) }
  }

  /** Points and matches per slot. */
  datatype Tally = Tally(scores: seq<nat>, played: seq<nat>)

  function AddAt(s: seq<nat>, i: nat, x: nat): seq<nat>
    requires i < |s|
  {
    s[i := s[i] + x]
  }

  /** The pair of match i if both its slots are in use. */
  function Contest(f: Fixture, i: nat): (c: Option<Pair>)
    requires f.Valid()
    ensures c.Some? ==> c.value.0 < |f.slots| && c.value.1 < |f.slots|
    ensures c.Some? ==> f.slots[c.value.0].Some? && f.slots[c.value.1].Some?
  {
    match GetPairing(f.n, f.k, f.seed, i)
    case None => None
    case Some(p) =>
      if p.0 < |f.slots| && p.1 < |f.slots| && f.slots[p.0].Some? && f.slots[p.1].Some? then Some(p) else None
  }

  function ContestResult(f: Fixture, i: nat, p: Pair): MatchResult
    requires p.0 < |f.slots| && p.1 < |f.slots| && f.slots[p.0].Some? && f.slots[p.1].Some?
  {
    MatchOf(f.slots[p.0].value, f.slots[p.1].value, f.seed, i, f.n)
  }

  predicate Fits(t: Tally, f: Fixture) { |t.scores| == |t.played| == |f.slots| }

  /** Adds the points of match i, or nothing if one of its slots is blank. */
  function Award(f: Fixture, t: Tally, i: nat): (t': Tally)
    requires f.Valid() && Fits(t, f)
    ensures Fits(t', f)
  {
    match Contest(f, i)
    case None => t
    case Some(p) =>
      var result := ContestResult(f, i, p);
      Tally(AddAt(AddAt(t.scores, p.0, result.totalA), p.1, result.totalB), AddAt(AddAt(t.played, p.0, 1), p.1, 1))
  }

  /** The tally after the first m matches, as one fold. */
  function Replay(f: Fixture, m: nat): (t: Tally)
    requires f.Valid()
    ensures Fits(t, f)
  {
    if m == 0 then Tally(seq(|f.slots|, _ => 0), seq(|f.slots|, _ => 0))
    else Award(f, Replay(f, m - 1), m - 1)
  }

  // ----- bounds -----

  /** The matches before m in which slot p is drawn. */
  ghost function DrawnBefore(f: Fixture, m: nat, p: nat): set<int>
    requires f.Valid()
  {
    set i | i in Range(0, m) && Involves(GetPairing(f.n, f.k, f.seed, i), p)
  }

  lemma AwardBounds(f: Fixture, t: Tally, i: nat, p: nat)
    requires f.Valid() && Fits(t, f) && p < |f.slots|
    requires t.scores[p] <= MAX_MATCH_SCORE * t.played[p]
    requires Contest(f, i).Some? ==> Contest(f, i).value.0 != Contest(f, i).value.1
    ensures var t' := Award(f, t, i);
            && t'.scores[p] <= MAX_MATCH_SCORE * t'.played[p]
            && t.played[p] <= t'.played[p] <= t.played[p] + 1
            && (t'.played[p] != t.played[p] ==> Involves(GetPairing(f.n, f.k, f.seed, i), p))
            && (f.slots[p].None? ==> t'.scores[p] == t.scores[p] && t'.played[p] == t.played[p])
  {
    hide GetPairing, MatchOf;
    var c := Contest(f, i);
    if c.Some? {
      MatchScoreRange(f.slots[c.value.0].value, f.slots[c.value.1].value, f.seed, i, f.n);
    }
  }

  lemma DrawnStep(f: Fixture, m: nat, p: nat)
    requires f.Valid()
    ensures |DrawnBefore(f, m + 1, p)|
         == |DrawnBefore(f, m, p)| + (if Involves(GetPairing(f.n, f.k, f.seed, m), p) then 1 else 0)
  {
    hide GetPairing, Involves;
    if Involves(GetPairing(f.n, f.k, f.seed, m), p) {
      assert DrawnBefore(f, m + 1, p) == DrawnBefore(f, m, p) + {m};
    } else {
      assert DrawnBefore(f, m + 1, p) == DrawnBefore(f, m, p);
    }
  }

  /** A slot has at most 250 points per match played, plays only matches it is drawn in, and none when blank. */
  lemma {:induction false} ReplayBounds(f: Fixture, m: nat, p: nat)
    requires f.Valid() && p < |f.slots|
    requires forall i: nat :: i < m && Contest(f, i).Some? ==> Contest(f, i).value.0 != Contest(f, i).value.1
    ensures var t := Replay(f, m);
            && t.scores[p] <= MAX_MATCH_SCORE * t.played[p]
            && t.played[p] <= |DrawnBefore(f, m, p)|
            && (f.slots[p].None? ==> t.scores[p] == 0 && t.played[p] == 0)
  {
    hide GetPairing, Contest, Award, DrawnBefore, Involves;
    if m > 0 {
      ReplayBounds(f, m - 1, p);
      AwardBounds(f, Replay(f, m - 1), m - 1, p);
      DrawnStep(f, m - 1, p);
    }
  }

  /** Whatever the size, under the adaptive K 199 matches and 49750 points per slot are never exceeded. */
  lemma TournamentBounds(f: Fixture, configK: nat, m: nat, p: nat)
    requires 2 <= f.n && f.k == EffectiveK(f.n, configK) && m <= MatchCount(f.n, f.k) && p < |f.slots|
    ensures f.Valid()
    ensures var t := Replay(f, m); t.played[p] <= 199 && t.scores[p] <= MAX_MATCH_SCORE * t.played[p]
  {
    hide GetPairing, MatchCount, Replay;
    ContestsProper(f, m);
    ReplayBounds(f, m, p);
    DrawnAtMost(f, configK, m, p);
  }

  /** The two sides of a contest are different slots below n. */
  lemma ContestsProper(f: Fixture, m: nat)
    requires f.Valid()
    ensures forall i: nat :: i < m && Contest(f, i).Some? ==> Proper(Contest(f, i).value, f.n)
  {
    hide GetPairing, Servable;
    forall i: nat | i < m && Contest(f, i).Some? ensures Proper(Contest(f, i).value, f.n) {
      LookupProper(f.n, f.k, f.seed, i);
    }
  }

  lemma DrawnAtMost(f: Fixture, configK: nat, m: nat, p: nat)
    requires 2 <= f.n && f.k == EffectiveK(f.n, configK) && f.Valid() && m <= MatchCount(f.n, f.k)
    ensures |DrawnBefore(f, m, p)| <= 199
  {
    hide GetPairing, MatchCount, Range, Servable;
    if p < f.n {
      DegreeAtMost(f.n, configK, f.seed, p);
      SubsetCardinality(DrawnBefore(f, m, p), MatchesOf(f.n, f.k, f.seed, p));
    } else {
      NeverDrawn(f, m, p);
    }
  }

  /** A slot at or above n is never drawn. */
  lemma NeverDrawn(f: Fixture, m: nat, p: nat)
    requires f.Valid() && f.n <= p
    ensures DrawnBefore(f, m, p) == {}
  {
    hide GetPairing, Range, Servable;
    forall i | i in Range(0, m) ensures i !in DrawnBefore(f, m, p) {
      if GetPairing(f.n, f.k, f.seed, i).Some? { LookupProper(f.n, f.k, f.seed, i); }
    }
  }
}
