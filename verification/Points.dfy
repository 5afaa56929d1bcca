/** Whose points are whose: scores read off the published strategy bytes, the schedule and the payoff laws. */
module Points {
  import opened Options
  import opened Schedule
  import opened Strategies
  import opened Game
  import opened Laws
  import opened Parity
  import opened Accounts
  import opened Rosters
  import opened Replays
  import opened Batches
  import opened Safety
  import opened Guarantees

  /** The builtins in the order of their bytes. */
  const ORDER: seq<Base> :=
    [TitForTat, AlwaysDefect, AlwaysCooperate, GrimTrigger, Pavlov, SuspiciousTitForTat, Random, TitForTwoTats, Gradual]

  /** The player a slot announces: the builtin its byte stands for, or the program in its entry. */
  function Announced(r: Roster, i: nat): Player
    requires i < |r.strategies| && i < |r.players| && r.players[i] in r.entries
  {
    if r.strategies[i] < 9 then Builtin(ORDER[r.strategies[i]]) else Custom(r.entries[r.players[i]].bytecode)
  }

  /** Slot i is in use and its strategy revealed. */
  predicate Fielded(r: Roster, i: nat) {
    && i < |r.strategies| && i < |r.players| && r.players[i] != DEFAULT
    && r.players[i] in r.entries && r.entries[r.players[i]].index == i && r.entries[r.players[i]].revealed
  }

  lemma PlayerOfByte(c: Choice)
    ensures c.Standard? ==> Index(c) < 9 && ORDER[Index(c)] == c.base
    ensures c.CustomCode? ==> Index(c) == 9
  {}

  /** Entry and slot agree on who plays. */
  lemma AnnouncedPlays(r: Roster, i: nat)
    requires Linked(r) && Fielded(r, i)
    ensures ToPlayer(r.entries[r.players[i]]) == Announced(r, i)
  {
    hide Index;
    assert EntryLinked(r, r.players[i]);
    PlayerOfByte(r.entries[r.players[i]].choice);
  }

  // ----- one match on the accounts -----

  /** The match of two announced players. */
  function MatchBetween(r: Roster, d: Draw, m: nat, a: nat, b: nat): MatchResult
    requires Fielded(r, a) && Fielded(r, b)
  {
    MatchOf(Announced(r, a), Announced(r, b), d.seed, m, r.participantCount)
  }

  /**
   A successful match between two slots in use gives the lower slot the points of the first player and the
   higher slot those of the second, in the slot vector and in the entry alike, and nobody else anything.
   */
  lemma PlayMatchPoints(r: Roster, d: Draw, m: nat, accounts: set<Key>, a: nat, b: nat)
    requires RosterInv(r) && PlayMatch(r, d, m, accounts).Ok? && Fielded(r, a) && Fielded(r, b)
    requires Servable(r.participantCount, d.matchesPerPlayer)
    requires GetPairing(r.participantCount, d.matchesPerPlayer, d.seed, m) == Some((a, b))
    ensures var r', result := PlayMatch(r, d, m, accounts).value, MatchBetween(r, d, m, a, b);
            && |r'.scores| == |r.scores| && r'.entries.Keys == r.entries.Keys && a < b < |r.scores|
            && r'.scores[a] == r.scores[a] + result.totalA && r'.scores[b] == r.scores[b] + result.totalB
            && (forall i :: 0 <= i < |r.scores| && i != a && i != b ==> r'.scores[i] == r.scores[i])
            && r'.entries[r.players[a]].score == r.entries[r.players[a]].score + result.totalA
            && r'.entries[r.players[b]].score == r.entries[r.players[b]].score + result.totalB
  {
    hide GetPairing, MatchOf, Servable, Counted, Blanked, ToPlayer, Announced;
    PlayMatchCases(r, d, m, accounts);
    AnnouncedPlays(r, a);
    AnnouncedPlays(r, b);
    assert r.players[a] != r.players[b];
  }

  /** Strategy bytes as published: what an AlwaysDefect slot takes off an AlwaysCooperate slot. */
  lemma DefectorGains(r: Roster, d: Draw, m: nat, a: nat, b: nat)
    requires Fielded(r, a) && Fielded(r, b) && r.strategies[a] == 1 && r.strategies[b] == 2
    ensures var result := MatchBetween(r, d, m, a, b);
            result.totalA == 5 * result.roundCount && result.totalB == 0 && 10 <= result.roundCount
  {
    hide MatchOf;
    ConstantTotals(d.seed, m, r.participantCount);
    MatchScoreRange(Announced(r, a), Announced(r, b), d.seed, m, r.participantCount);
  }

  /** Points of the slot in this seat minus those of the other. */
  function Lead(r: Roster, d: Draw, m: nat, me: nat, them: nat, seat: Seat): int
    requires Fielded(r, me) && Fielded(r, them)
  {
    var result := if seat.A? then MatchBetween(r, d, m, me, them) else MatchBetween(r, d, m, them, me);
    if seat.A? then result.totalA - result.totalB else result.totalB - result.totalA
  }

  /** What a match can do to a slot, by its published byte, against every announced opponent and in either seat. */
  lemma LeadByByte(r: Roster, d: Draw, m: nat, me: nat, them: nat, seat: Seat)
    requires Fielded(r, me) && Fielded(r, them)
    ensures var lead, x := Lead(r, d, m, me, them, seat), r.strategies[me];
            && (x == 0 ==> lead in {0, -5}) && (x == 5 ==> lead in {0, 5})
            && (x == 1 ==> 0 <= lead) && (x == 2 ==> lead <= 0)
            && (x == 3 ==> -5 <= lead) && (x == 7 ==> lead <= 0)
  {
    hide MatchOf;
    var opponent := Announced(r, them);
    TitForTatMargin(opponent, seat, d.seed, m, r.participantCount);
    SuspiciousMargin(opponent, seat, d.seed, m, r.participantCount);
    ConstantMargins(opponent, seat, d.seed, m, r.participantCount);
    GrimMargin(opponent, seat, d.seed, m, r.participantCount);
    TwoTatsMargin(opponent, seat, d.seed, m, r.participantCount);
  }

  /** A custom entry that holds the listing of a builtin scores, and lets score, exactly as that builtin would. */
  lemma ListingScores(r: Roster, d: Draw, m: nat, a: nat, b: nat, base: Base)
    requires Fielded(r, a) && Fielded(r, b) && r.strategies[a] == 9
    requires ListingOf(base) == Some(r.entries[r.players[a]].bytecode)
    ensures MatchBetween(r, d, m, a, b)
         == MatchOf(Builtin(base), Announced(r, b), d.seed, m, r.participantCount)
  {
    hide MatchOf;
    ListingParity(base, Announced(r, b), d.seed, m, r.participantCount);
  }

  // ----- the fold -----

  /** The points slot p takes from match i. */
  function PointsIn(f: Fixture, i: nat, p: nat): nat
    requires f.Valid()
  {
    match Contest(f, i)
    case None => 0
    case Some(q) =>
      var result := MatchOf(f.slots[q.0].value, f.slots[q.1].value, f.seed, i, f.n);
      if q.0 == p then result.totalA else if q.1 == p then result.totalB else 0
  }

  function PointsBefore(f: Fixture, m: nat, p: nat): nat
    requires f.Valid()
  {
    if m == 0 then 0 else PointsBefore(f, m - 1, p) + PointsIn(f, m - 1, p)
  }

  lemma AwardPoints(f: Fixture, t: Tally, i: nat, p: nat)
    requires f.Valid() && Fits(t, f) && p < |f.slots|
    requires Contest(f, i).Some? ==> Contest(f, i).value.0 != Contest(f, i).value.1
    ensures Award(f, t, i).scores[p] == t.scores[p] + PointsIn(f, i, p)
  {
    hide GetPairing, MatchOf;
  }

  /** The fold gives every slot the sum of its own points. */
  lemma {:induction false} ReplayPoints(f: Fixture, m: nat, p: nat)
    requires f.Valid() && p < |f.slots|
    ensures Replay(f, m).scores[p] == PointsBefore(f, m, p)
  {
    hide Contest, Award, PointsIn;
    if m > 0 {
      ReplayPoints(f, m - 1, p);
      ContestsProper(f, m);
      AwardPoints(f, Replay(f, m - 1), m - 1, p);
    }
  }

  /** In a running tournament the fixture seats exactly the announced players. */
  lemma SeatedAsAnnounced(t: Tournament, now: int, i: nat)
    requires Inv(t, now) && t.phase == Running && i < |t.roster.players| && t.roster.players[i] != DEFAULT
    ensures Filled(t.roster) && Fielded(t.roster, i)
    ensures i < |FixtureOf(t.roster, t.draw).slots|
    ensures FixtureOf(t.roster, t.draw).slots[i] == Some(Announced(t.roster, i))
  {
    hide DrawInv, Announced;
    AllRevealed(t.roster);
    AnnouncedPlays(t.roster, i);
  }

  /** So every score on the accounts is the sum of what its slot won as the announced player. */
  lemma ScoreIsSum(t: Tournament, now: int, p: nat)
    requires Inv(t, now) && t.phase == Running && p < |t.roster.scores|
    ensures Filled(t.roster) && FixtureOf(t.roster, t.draw).Valid()
    ensures t.roster.scores[p] == PointsBefore(FixtureOf(t.roster, t.draw), t.draw.matchesCompleted, p)
  {
    hide Inv, Replay, PointsBefore, Servable;
    ScoresAreFold(t, now);
    ReplayPoints(FixtureOf(t.roster, t.draw), t.draw.matchesCompleted, p);
  }
}
