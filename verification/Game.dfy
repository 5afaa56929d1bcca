/** A match: a drawn number of rounds in which both histories feed both players. */
module Game {
  import opened Rng
  import opened Moves
  import opened Vm
  import opened Machine
  import opened Strategies

  datatype RoundResult = RoundResult(
    round: Byte, moveA: Move, moveB: Move, scoreA: Byte, scoreB: Byte, cumulativeA: nat, cumulativeB: nat)

  datatype MatchResult = MatchResult(rounds: seq<RoundResult>, totalA: nat, totalB: nat, roundCount: Byte)

  datatype RoundConfig = RoundConfig(minRounds: Byte, maxRounds: Byte, endProbability: Byte)

  const STANDARD := RoundConfig(20, 50, 5)
  const COMPRESSED := RoundConfig(10, 30, 7)

  function ConfigFor(participants: nat): RoundConfig {
    if participants <= 1000 then STANDARD else COMPRESSED
  }

  /** Rounds from `rounds` on: one draw per extra round until one falls below the end probability. */
  function RoundCountFrom(rng: SeededRng, c: RoundConfig, rounds: nat): (r: (SeededRng, nat))
    requires rounds <= c.maxRounds
    ensures rounds <= r.1 <= c.maxRounds
    decreases c.maxRounds - rounds
  {
    if rounds == c.maxRounds then (rng, rounds)
    else
      var (next, draw) := NextPercent(rng);
      if draw < c.endProbability then (next, rounds) else RoundCountFrom(next, c, rounds + 1)
  }

  /** The round count drawn for a match and the generator left for its rounds. */
  function MatchSetup(seed: Seed, index: nat, participants: nat): (r: (SeededRng, nat))
    ensures 10 <= r.1 <= 50
    ensures participants <= 1000 ==> 20 <= r.1
    ensures participants > 1000 ==> r.1 <= 30
  {
    RoundCountFrom(New(seed, index), ConfigFor(participants), ConfigFor(participants).minRounds)
  }

  /** The generator after i draws. */
  function AfterDraws(rng: SeededRng, i: nat): SeededRng
    decreases i
  {
    if i == 0 then rng else AfterDraws(NextPercent(rng).0, i - 1)
  }

  function DrawAt(rng: SeededRng, i: nat): nat { NextPercent(AfterDraws(rng, i)).1 }

  /** One round per draw that does not end the match; a count below the maximum was ended by a draw. */
  lemma {:induction false} RoundCountExact(rng: SeededRng, c: RoundConfig, rounds: nat)
    requires rounds <= c.maxRounds
    ensures var (rest, count) := RoundCountFrom(rng, c, rounds);
            && (forall i: nat :: i < count - rounds ==> c.endProbability <= DrawAt(rng, i))
            && (count < c.maxRounds ==> DrawAt(rng, count - rounds) < c.endProbability)
            && rest == AfterDraws(rng, count - rounds + (if count < c.maxRounds then 1 else 0))
    decreases c.maxRounds - rounds
  {
    hide NextPercent;
    if rounds < c.maxRounds && c.endProbability <= NextPercent(rng).1 {
      var next := NextPercent(rng).0;
      RoundCountExact(next, c, rounds + 1);
      forall i: nat | 0 < i ensures DrawAt(rng, i) == DrawAt(next, i - 1) {}
    }
  }

  /**
   How long a match is: 20 to 50 rounds with a 5 percent chance to end after each, or 10 to 30 rounds with 7
   percent above 1000 participants, read off the draws of the match's own generator.
   */
  lemma MatchLength(seed: Seed, index: nat, participants: nat)
    ensures var (rest, count) := MatchSetup(seed, index, participants);
            var rng, standard := New(seed, index), participants <= 1000;
            var (least, most, chance) := if standard then (20, 50, 5) else (10, 30, 7);
            && least <= count <= most
            && (forall i: nat :: i < count - least ==> chance <= DrawAt(rng, i))
            && (count < most ==> DrawAt(rng, count - least) < chance)
            && rest == AfterDraws(rng, count - least + (if count < most then 1 else 0))
  {
    hide NextPercent, New, AfterDraws, DrawAt, RoundCountFrom;
    RoundCountExact(New(seed, index), ConfigFor(participants), ConfigFor(participants).minRounds);
  }

  method DetermineRoundCount(rng0: SeededRng, c: RoundConfig) returns (rng: SeededRng, rounds: nat)
    requires c.minRounds <= c.maxRounds
    ensures (rng, rounds) == RoundCountFrom(rng0, c, c.minRounds)
  {
    hide NextPercent;
    rng, rounds := rng0, c.minRounds;
    while rounds < c.maxRounds
      invariant c.minRounds <= rounds <= c.maxRounds
      invariant RoundCountFrom(rng0, c, c.minRounds) == RoundCountFrom(rng, c, rounds)
    {
      var (next, draw) := NextPercent(rng);
      rng := next;
      if draw < c.endProbability {
        break;
      }
      rounds := rounds + 1;
    }
  }

  // ----- the round loop -----

  datatype Progress = Progress(a: History, b: History, rounds: seq<RoundResult>, totalA: nat, totalB: nat)

  const OPENING := Progress([], [], [], 0, 0)

  /** Appends one round in which the players make the given moves. */
  function Extend(p: Progress, moveA: Move, moveB: Move): Progress
    requires |p.rounds| < 256
  {
    var (scoreA, scoreB) := Payoff(moveA, moveB);
    var totalA, totalB := p.totalA + scoreA, p.totalB + scoreB;
    Progress(p.a + [moveA], p.b + [moveB],
             p.rounds + [RoundResult(|p.rounds|, moveA, moveB, scoreA, scoreB, totalA, totalB)], totalA, totalB)
  }

  /** The match after r rounds; round number and both history lengths stay equal. */
  function Play(pa: Player, pb: Player, rng: SeededRng, r: nat): (p: Progress)
    requires r <= 100
    ensures |p.a| == |p.b| == |p.rounds| == r
  {
    if r == 0 then OPENING
    else
      var p := Play(pa, pb, rng, r - 1);
      var moveA := PlayOne(pa, p.b, p.a, r - 1, ForRound(rng, 2 * (r - 1)));
      var moveB := PlayOne(pb, p.a, p.b, r - 1, ForRound(rng, 2 * (r - 1) + 1));
      Extend(p, moveA, moveB)
  }

  function Result(p: Progress, roundCount: Byte): MatchResult {
    MatchResult(p.rounds, p.totalA, p.totalB, roundCount)
  }

  function MatchOf(pa: Player, pb: Player, seed: Seed, index: nat, participants: nat): MatchResult {
    var (rng, count) := MatchSetup(seed, index, participants);
    Result(Play(pa, pb, rng, count), count)
  }

  /** A player's move: custom programs run on the array machine, and any fault plays Cooperate. */
  method ExecutePlayer(p: Player, opp: History, mine: History, round: Byte, rng: SeededRng) returns (move: Move)
    ensures move == PlayOne(p, opp, mine, round, rng)
  {
    match p
    case Builtin(base) => move := PlayBuiltin(base, opp, mine, rng);
    case Custom(code) =>
      var result, _ := ExecuteInner(Env(code, opp, mine, round), rng);
      move := if result.Some? then result.value else Cooperate;
  }

  method RunMatch(pa: Player, pb: Player, seed: Seed, index: nat, participants: nat) returns (result: MatchResult)
    ensures result == MatchOf(pa, pb, seed, index, participants)
  {
    hide New, PlayOne, ForRound, RoundCountFrom, Payoff;
    var config := if participants <= 1000 then STANDARD else COMPRESSED;
    var rng, roundCount := DetermineRoundCount(New(seed, index), config);
    var historyA: History, historyB: History, rounds: seq<RoundResult> := [], [], [];
    var totalA: nat, totalB: nat := 0, 0;
    for round := 0 to roundCount
      invariant Progress(historyA, historyB, rounds, totalA, totalB) == Play(pa, pb, rng, round)
    {
      // The per-round stream numbers are bytes.
      assert round * 2 + 1 < 256;
      var moveA := ExecutePlayer(pa, historyB, historyA, round, ForRound(rng, round * 2));
      var moveB := ExecutePlayer(pb, historyA, historyB, round, ForRound(rng, round * 2 + 1));
      var (scoreA, scoreB) := Payoff(moveA, moveB);
      totalA := totalA + scoreA;
      totalB := totalB + scoreB;
      rounds := rounds + [RoundResult(round, moveA, moveB, scoreA, scoreB, totalA, totalB)];
      historyA := historyA + [moveA];
      historyB := historyB + [moveB];
    }
    result := MatchResult(rounds, totalA, totalB, roundCount);
  }
}
