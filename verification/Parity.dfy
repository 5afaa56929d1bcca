/** Bytecode listings that can replace a builtin strategy in any match, and one that cannot. */
module Parity {
  import opened Options
  import opened Rng
  import opened Moves
  import opened Vm
  import opened Strategies
  import opened Game

  const COOPERATE_LISTING: seq<Byte> := [COOP]
  const DEFECT_LISTING: seq<Byte> := [DEFECT]
  const TIT_FOR_TAT_LISTING: seq<Byte> := [OPP_LAST, RETURN]
  const GRIM_LISTING: seq<Byte> := [OPP_DEFECTS, PUSH, 0, GT, JMP_FWD_IF, 1, COOP, DEFECT]
  const SUSPICIOUS_LISTING: seq<Byte> := [ROUND, PUSH, 0, EQ, JMP_FWD_IF, 2, OPP_LAST, RETURN, DEFECT]
  const TWO_TATS_LISTING: seq<Byte> :=
    [ROUND, PUSH, 2, LT, JMP_FWD_IF, 8, PUSH, 0, OPP_N, PUSH, 1, OPP_N, AND, RETURN, COOP]
  /** The published listing; both its jumps land on the NOT at byte 15. */
  const PAVLOV_LISTING: seq<Byte> :=
    [ROUND, PUSH, 0, EQ, JMP_FWD_IF, 9, SCORE_LAST, PUSH, 3, LT, JMP_FWD_IF, 3,
     MY_LAST, RETURN, MY_LAST, NOT, RETURN, COOP]
  /** The same with jump offsets 11 and 2. */
  const PAVLOV_CORRECTED: seq<Byte> :=
    [ROUND, PUSH, 0, EQ, JMP_FWD_IF, 11, SCORE_LAST, PUSH, 3, LT, JMP_FWD_IF, 2,
     MY_LAST, RETURN, MY_LAST, NOT, RETURN, COOP]

  /** What a player sees in round |opp| of a match. */
  ghost predicate InStep(opp: History, mine: History) { |opp| == |mine| < 256 }

  /** Two players that move alike in every situation a match can put them in. */
  ghost predicate Interchangeable(p: Player, q: Player) {
    forall opp: History, mine: History, rng: SeededRng :: InStep(opp, mine) ==>
      PlayOne(p, opp, mine, |opp|, rng) == PlayOne(q, opp, mine, |opp|, rng)
  }

  // ----- whole matches -----

  lemma {:induction false} PlayAlike(pa: Player, qa: Player, pb: Player, qb: Player, rng: SeededRng, r: nat)
    requires Interchangeable(pa, qa) && Interchangeable(pb, qb) && r <= 100
    ensures Play(pa, pb, rng, r) == Play(qa, qb, rng, r)
  {
    hide PlayOne, ForRound, Extend;
    if r > 0 {
      PlayAlike(pa, qa, pb, qb, rng, r - 1);
      var p := Play(pa, pb, rng, r - 1);
      assert InStep(p.b, p.a) && InStep(p.a, p.b);
    }
  }

  /** Replacing players by interchangeable ones, in either or both seats, leaves every match unchanged. */
  lemma MatchAlike(pa: Player, qa: Player, pb: Player, qb: Player, seed: Seed, index: nat, participants: nat)
    requires Interchangeable(pa, qa) && Interchangeable(pb, qb)
    ensures MatchOf(pa, pb, seed, index, participants) == MatchOf(qa, qb, seed, index, participants)
  {
    hide Interchangeable, Play, MatchSetup;
    var (rng, count) := MatchSetup(seed, index, participants);
    PlayAlike(pa, qa, pb, qb, rng, count);
  }

  // ----- the listings -----

  /** Short programs run without their fuel. */
  lemma ShortRun(code: seq<Byte>, opp: History, mine: History, round: Byte, rng: SeededRng)
    requires |code| <= 128
    ensures ExecuteBytecode(Env(code, opp, mine, round), rng)
         == var o := Run(Env(code, opp, mine, round), Start(rng)); if o.Played? then o.move else Cooperate
  {
    hide Run, RunFueled;
    FuelNeverFires(Env(code, opp, mine, round), rng);
  }

  /** A step that continues can be taken first. */
  lemma Go(env: Env, st: State, next: State)
    requires st.pc < |env.code| && |st.stack| <= STACK_SIZE && Step(env, st) == Continue(next)
    ensures Run(env, st) == Run(env, next)
  {}

  lemma Stop(env: Env, st: State, o: Outcome)
    requires st.pc < |env.code| && |st.stack| <= STACK_SIZE && Step(env, st) == Halt(o)
    ensures Run(env, st) == o
  {}

  lemma GoPush(env: Env, pc: nat, s: seq<Byte>, s': seq<Byte>, rng: SeededRng)
    requires pc + 1 < |env.code| && env.code[pc] == PUSH && |s| < STACK_SIZE && s' == s + [env.code[pc + 1]]
    ensures Run(env, State(pc, s, rng)) == Run(env, State(pc + 2, s', rng))
  {
    hide Run;
    Go(env, State(pc, s, rng), State(pc + 2, s', rng));
  }

  lemma GoSource(env: Env, pc: nat, v: Byte, rng: SeededRng)
    requires pc < |env.code| && IsSource(env.code[pc]) && SourceValue(env, env.code[pc], rng) == (rng, v)
    ensures Run(env, State(pc, [], rng)) == Run(env, State(pc + 1, [v], rng))
  {
    hide Run, SourceValue;
    Go(env, State(pc, [], rng), State(pc + 1, [v], rng));
  }

  lemma GoUnary(env: Env, pc: nat, s: seq<Byte>, s': seq<Byte>, rng: SeededRng)
    requires pc < |env.code| && IsUnary(env.code[pc]) && 0 < |s| <= STACK_SIZE
    requires s' == s[..|s| - 1] + [UnaryValue(env, env.code[pc], s[|s| - 1])]
    ensures Run(env, State(pc, s, rng)) == Run(env, State(pc + 1, s', rng))
  {
    hide Run, UnaryValue;
    Go(env, State(pc, s, rng), State(pc + 1, s', rng));
  }

  lemma GoBinary(env: Env, pc: nat, a: Byte, b: Byte, v: Byte, rng: SeededRng)
    requires pc < |env.code| && IsBinary(env.code[pc]) && v == BinaryValue(env.code[pc], a, b)
    ensures Run(env, State(pc, [a, b], rng)) == Run(env, State(pc + 1, [v], rng))
  {
    hide Run, BinaryValue;
    assert Drop([a, b]) == [a] && Drop([a]) == [];
    Go(env, State(pc, [a, b], rng), State(pc + 1, [v], rng));
  }

  lemma StopReturn(env: Env, pc: nat, v: Byte, rng: SeededRng)
    requires pc < |env.code| && env.code[pc] == RETURN
    ensures Run(env, State(pc, [v], rng)) == Played(if v == 0 then Cooperate else Defect, rng)
  {
    hide Run;
    Stop(env, State(pc, [v], rng), Played(if v == 0 then Cooperate else Defect, rng));
  }

  /** The byte after a two-byte jump at pc, moved on by its offset. */
  function Target(code: seq<Byte>, pc: nat): nat
    requires pc + 1 < |code|
  {
    pc + 2 + code[pc + 1]
  }

  lemma GoJumpIf(env: Env, pc: nat, taken: bool, rng: SeededRng)
    requires pc + 1 < |env.code| && env.code[pc] == JMP_FWD_IF
    ensures Run(env, State(pc, [Flag(taken)], rng))
         == Run(env, State(if taken then Target(env.code, pc) else pc + 2, [], rng))
  {
    hide Run;
    Go(env, State(pc, [Flag(taken)], rng), State(if taken then Target(env.code, pc) else pc + 2, [], rng));
  }

  /** The common opening ROUND, PUSH c, compare, JMP_FWD_IF: leaves an empty stack at byte 6 or at the target. */
  lemma RoundGuard(env: Env, taken: bool, rng: SeededRng)
    requires |env.code| >= 6 && env.code[0] == ROUND && env.code[1] == PUSH && env.code[4] == JMP_FWD_IF
    requires IsBinary(env.code[3]) && BinaryValue(env.code[3], env.round, env.code[2]) == Flag(taken)
    ensures Run(env, Start(rng)) == Run(env, State(if taken then Target(env.code, 4) else 6, [], rng))
  {
    hide Run, Step, BinaryValue, IsBinary;
    var r, c := env.round, env.code[2];
    GoSource(env, 0, r, rng);
    GoPush(env, 1, [r], [r, c], rng);
    GoBinary(env, 3, r, c, Flag(taken), rng);
    GoJumpIf(env, 4, taken, rng);
  }

  lemma ConstantListings(opp: History, mine: History, round: Byte, rng: SeededRng)
    ensures PlayOne(Custom(COOPERATE_LISTING), opp, mine, round, rng) == Cooperate
    ensures PlayOne(Custom(DEFECT_LISTING), opp, mine, round, rng) == Defect
  {}

  lemma TitForTatListing(opp: History, mine: History, round: Byte, rng: SeededRng)
    ensures PlayOne(Custom(TIT_FOR_TAT_LISTING), opp, mine, round, rng)
         == PlayOne(Builtin(TitForTat), opp, mine, round, rng)
  {
    hide Run, RunFueled, ExecuteBytecode;
    var env := Env(TIT_FOR_TAT_LISTING, opp, mine, round);
    ShortRun(TIT_FOR_TAT_LISTING, opp, mine, round, rng);
    GoSource(env, 0, LastBit(opp), rng);
    StopReturn(env, 1, LastBit(opp), rng);
  }

  lemma GrimListing(opp: History, mine: History, round: Byte, rng: SeededRng)
    ensures PlayOne(Custom(GRIM_LISTING), opp, mine, round, rng)
         == PlayOne(Builtin(GrimTrigger), opp, mine, round, rng)
  {
    hide Run, Defects, RunFueled, ExecuteBytecode;
    var env := Env(GRIM_LISTING, opp, mine, round);
    ShortRun(GRIM_LISTING, opp, mine, round, rng);
    DefectsPositive(opp);
    var hit := Defect in opp;
    var d := DefectByte(opp);
    GoSource(env, 0, d, rng);
    GoPush(env, 1, [d], [d, 0], rng);
    GoBinary(env, 3, d, 0, Flag(hit), rng);
    GoJumpIf(env, 4, hit, rng);
    Stop(env, State(if hit then 7 else 6, [], rng), Played(if hit then Defect else Cooperate, rng));
  }

  lemma SuspiciousListing(opp: History, mine: History, round: Byte, rng: SeededRng)
    requires round == |opp|
    ensures PlayOne(Custom(SUSPICIOUS_LISTING), opp, mine, round, rng)
         == PlayOne(Builtin(SuspiciousTitForTat), opp, mine, round, rng)
  {
    hide Run, RunFueled, ExecuteBytecode;
    var env := Env(SUSPICIOUS_LISTING, opp, mine, round);
    ShortRun(SUSPICIOUS_LISTING, opp, mine, round, rng);
    RoundGuard(env, opp == [], rng);
    if opp == [] {
      Stop(env, State(8, [], rng), Played(Defect, rng));
    } else {
      GoSource(env, 6, LastBit(opp), rng);
      StopReturn(env, 7, LastBit(opp), rng);
    }
  }

  /** PUSH n, OPP_N with one value already below or none. */
  lemma GoAgo(env: Env, pc: nat, s: seq<Byte>, s': seq<Byte>, rng: SeededRng)
    requires pc + 2 < |env.code| && env.code[pc] == PUSH && env.code[pc + 2] == OPP_N && |s| < STACK_SIZE
    requires s' == s + [BitAgo(env.opp, env.code[pc + 1])]
    ensures Run(env, State(pc, s, rng)) == Run(env, State(pc + 3, s', rng))
  {
    hide Run, Step, BitAgo;
    var pushed := s + [env.code[pc + 1]];
    GoPush(env, pc, s, pushed, rng);
    assert pushed[..|pushed| - 1] == s;
    GoUnary(env, pc + 2, pushed, s', rng);
  }

  /** PUSH 0, OPP_N, PUSH 1, OPP_N, AND, RETURN from byte 6 of the two-tats listing. */
  lemma TwoTatsTail(env: Env, rng: SeededRng)
    requires env.code == TWO_TATS_LISTING
    ensures var x, y := BitAgo(env.opp, 0), BitAgo(env.opp, 1);
            Run(env, State(6, [], rng)) == Played(if x != 0 && y != 0 then Defect else Cooperate, rng)
  {
    hide Run, Step, BitAgo;
    var x, y := BitAgo(env.opp, 0), BitAgo(env.opp, 1);
    GoAgo(env, 6, [], [x], rng);
    GoAgo(env, 9, [x], [x, y], rng);
    GoBinary(env, 12, x, y, Flag(x != 0 && y != 0), rng);
    StopReturn(env, 13, Flag(x != 0 && y != 0), rng);
  }

  lemma TwoTatsListing(opp: History, mine: History, round: Byte, rng: SeededRng)
    requires round == |opp|
    ensures PlayOne(Custom(TWO_TATS_LISTING), opp, mine, round, rng)
         == PlayOne(Builtin(TitForTwoTats), opp, mine, round, rng)
  {
    hide Run, RunFueled, ExecuteBytecode;
    var env := Env(TWO_TATS_LISTING, opp, mine, round);
    ShortRun(TWO_TATS_LISTING, opp, mine, round, rng);
    RoundGuard(env, round < 2, rng);
    if round < 2 {
      Stop(env, State(14, [], rng), Played(Cooperate, rng));
    } else {
      TwoTatsTail(env, rng);
    }
  }

  /** The six listings may stand in for their builtins anywhere. */
  lemma ListingsInterchangeable()
    ensures Interchangeable(Custom(COOPERATE_LISTING), Builtin(AlwaysCooperate))
    ensures Interchangeable(Custom(DEFECT_LISTING), Builtin(AlwaysDefect))
    ensures Interchangeable(Custom(TIT_FOR_TAT_LISTING), Builtin(TitForTat))
    ensures Interchangeable(Custom(GRIM_LISTING), Builtin(GrimTrigger))
    ensures Interchangeable(Custom(SUSPICIOUS_LISTING), Builtin(SuspiciousTitForTat))
    ensures Interchangeable(Custom(TWO_TATS_LISTING), Builtin(TitForTwoTats))
  {
    hide ExecuteBytecode;
    forall opp: History, mine: History, rng: SeededRng | InStep(opp, mine)
      ensures PlayOne(Custom(COOPERATE_LISTING), opp, mine, |opp|, rng) == Cooperate
      ensures PlayOne(Custom(DEFECT_LISTING), opp, mine, |opp|, rng) == Defect
      ensures PlayOne(Custom(TIT_FOR_TAT_LISTING), opp, mine, |opp|, rng)
           == PlayOne(Builtin(TitForTat), opp, mine, |opp|, rng)
      ensures PlayOne(Custom(GRIM_LISTING), opp, mine, |opp|, rng)
           == PlayOne(Builtin(GrimTrigger), opp, mine, |opp|, rng)
      ensures PlayOne(Custom(SUSPICIOUS_LISTING), opp, mine, |opp|, rng)
           == PlayOne(Builtin(SuspiciousTitForTat), opp, mine, |opp|, rng)
      ensures PlayOne(Custom(TWO_TATS_LISTING), opp, mine, |opp|, rng)
           == PlayOne(Builtin(TitForTwoTats), opp, mine, |opp|, rng)
    {
      ConstantListings(opp, mine, |opp|, rng);
      TitForTatListing(opp, mine, |opp|, rng);
      GrimListing(opp, mine, |opp|, rng);
      SuspiciousListing(opp, mine, |opp|, rng);
      TwoTatsListing(opp, mine, |opp|, rng);
    }
  }

  function ListingOf(base: Base): Option<seq<Byte>> {
    match base
    case AlwaysCooperate => Some(COOPERATE_LISTING)
    case AlwaysDefect => Some(DEFECT_LISTING)
    case TitForTat => Some(TIT_FOR_TAT_LISTING)
    case GrimTrigger => Some(GRIM_LISTING)
    case SuspiciousTitForTat => Some(SUSPICIOUS_LISTING)
    case TitForTwoTats => Some(TWO_TATS_LISTING)
    case Pavlov => Some(PAVLOV_CORRECTED)
    case _ => None
  }

  // ----- Pavlov -----

  ghost predicate IsPavlovListing(code: seq<Byte>) { code == PAVLOV_LISTING || code == PAVLOV_CORRECTED }

  /** ROUND, PUSH 0, EQ, JMP_FWD_IF: the first round leaves for the target of the first jump. */
  lemma PavlovOpening(env: Env, rng: SeededRng)
    requires IsPavlovListing(env.code) && env.round == |env.opp|
    ensures Run(env, Start(rng)) == Run(env, State(if env.opp == [] then Target(env.code, 4) else 6, [], rng))
  {
    hide Run, Step, SourceValue;
    RoundGuard(env, env.opp == [], rng);
  }

  lemma CompareScore(score: Byte)
    ensures BinaryValue(LT, score, 3) == Flag(score < 3)
  {}

  /** From byte 6: SCORE_LAST, PUSH 3, LT, JMP_FWD_IF; leaves an empty stack at byte 12 or past the offset. */
  lemma ScoreGuard(env: Env, rng: SeededRng)
    requires IsPavlovListing(env.code)
    ensures var bad := LastScore(env.opp, env.mine) < 3;
            Run(env, State(6, [], rng)) == Run(env, State(if bad then Target(env.code, 10) else 12, [], rng))
  {
    hide Run, Step, LastScore, BinaryValue;
    var score := LastScore(env.opp, env.mine);
    GoSource(env, 6, score, rng);
    GoPush(env, 7, [score], [score, 3], rng);
    CompareScore(score);
    GoBinary(env, 9, score, 3, Flag(score < 3), rng);
    GoJumpIf(env, 10, score < 3, rng);
  }

  /** Byte 12 repeats the last own move in both listings. */
  lemma RepeatTail(env: Env, rng: SeededRng)
    requires IsPavlovListing(env.code) && env.mine != []
    ensures Run(env, State(12, [], rng)) == Played(Last(env.mine), rng)
  {
    hide Run, Step;
    var bit := LastBit(env.mine);
    GoSource(env, 12, bit, rng);
    StopReturn(env, 13, bit, rng);
  }

  lemma FlipTail(env: Env, rng: SeededRng)
    requires env.code == PAVLOV_CORRECTED && env.mine != []
    ensures Run(env, State(14, [], rng)) == Played(Flip(Last(env.mine)), rng)
  {
    hide Run, Step;
    var bit := LastBit(env.mine);
    var other := Bit(Flip(Last(env.mine)));
    GoSource(env, 14, bit, rng);
    GoUnary(env, 15, [bit], [other], rng);
    StopReturn(env, 16, other, rng);
  }

  /** Byte 15 negates: with nothing on the stack, where both published jumps land, that is a fault. */
  lemma NotOnEmpty(env: Env, rng: SeededRng)
    requires env.code == PAVLOV_LISTING
    ensures Run(env, State(15, [], rng)) == Failed(Underflow, rng)
  {
    hide Run, SourceValue, UnaryValue, BinaryValue;
    Stop(env, State(15, [], rng), Failed(Underflow, rng));
  }

  lemma CooperateTail(env: Env, rng: SeededRng)
    requires env.code == PAVLOV_CORRECTED
    ensures Run(env, State(17, [], rng)) == Played(Cooperate, rng)
  {
    hide Run, SourceValue, UnaryValue, BinaryValue;
    Stop(env, State(17, [], rng), Played(Cooperate, rng));
  }

  lemma CorrectedRun(env: Env, rng: SeededRng)
    requires env.code == PAVLOV_CORRECTED && env.round == |env.opp| == |env.mine|
    ensures Run(env, Start(rng)) == Played(PlayPavlov(env.opp, env.mine), rng)
  {
    hide Run, Step, BinaryValue, SourceValue;
    PavlovOpening(env, rng);
    if env.opp == [] {
      CooperateTail(env, rng);
    } else {
      ScoreGuard(env, rng);
      if LastScore(env.opp, env.mine) < 3 { FlipTail(env, rng); } else { RepeatTail(env, rng); }
    }
  }

  /** The published listing faults in the first round and after every low score. */
  lemma PublishedRun(env: Env, rng: SeededRng)
    requires env.code == PAVLOV_LISTING && env.round == |env.opp| == |env.mine|
    ensures Run(env, Start(rng)) ==
            if env.opp == [] || LastScore(env.opp, env.mine) < 3 then Failed(Underflow, rng)
            else Played(Last(env.mine), rng)
  {
    hide Run, Step, BinaryValue, SourceValue, LastScore;
    PavlovOpening(env, rng);
    NotOnEmpty(env, rng);
    if env.opp != [] {
      ScoreGuard(env, rng);
      RepeatTail(env, rng);
    }
  }

  /** With the corrected offsets the listing is Pavlov. */
  lemma PavlovCorrected(opp: History, mine: History, rng: SeededRng)
    requires InStep(opp, mine)
    ensures PlayOne(Custom(PAVLOV_CORRECTED), opp, mine, |opp|, rng)
         == PlayOne(Builtin(Pavlov), opp, mine, |opp|, rng)
  {
    hide Run, Step, RunFueled, ExecuteBytecode, PlayPavlov;
    ShortRun(PAVLOV_CORRECTED, opp, mine, |opp|, rng);
    CorrectedRun(Env(PAVLOV_CORRECTED, opp, mine, |opp|), rng);
  }

  lemma PavlovInterchangeable()
    ensures Interchangeable(Custom(PAVLOV_CORRECTED), Builtin(Pavlov))
  {
    hide ExecuteBytecode;
    forall opp: History, mine: History, rng: SeededRng | InStep(opp, mine)
      ensures PlayOne(Custom(PAVLOV_CORRECTED), opp, mine, |opp|, rng)
           == PlayOne(Builtin(Pavlov), opp, mine, |opp|, rng)
    {
      PavlovCorrected(opp, mine, rng);
    }
  }

  /** The published listing moves like Pavlov exactly when the last round was not a betrayed cooperation. */
  lemma PavlovPublished(opp: History, mine: History, rng: SeededRng)
    requires InStep(opp, mine)
    ensures PlayOne(Custom(PAVLOV_LISTING), opp, mine, |opp|, rng)
         == PlayOne(Builtin(Pavlov), opp, mine, |opp|, rng)
       <==> !(mine != [] && Last(mine) == Cooperate && Last(opp) == Defect)
  {
    hide Run, Step, RunFueled, ExecuteBytecode;
    ShortRun(PAVLOV_LISTING, opp, mine, |opp|, rng);
    PublishedRun(Env(PAVLOV_LISTING, opp, mine, |opp|), rng);
  }

  /** Any builtin with a listing may be played by its listing in either seat, against anyone, in any match. */
  lemma ListingParity(base: Base, opponent: Player, seed: Seed, index: nat, participants: nat)
    requires ListingOf(base).Some?
    ensures MatchOf(Custom(ListingOf(base).value), opponent, seed, index, participants)
         == MatchOf(Builtin(base), opponent, seed, index, participants)
    ensures MatchOf(opponent, Custom(ListingOf(base).value), seed, index, participants)
         == MatchOf(opponent, Builtin(base), seed, index, participants)
  {
    hide Interchangeable, MatchOf;
    ListingsInterchangeable();
    PavlovInterchangeable();
    SelfInterchangeable(opponent);
    var p, q := Custom(ListingOf(base).value), Builtin(base);
    MatchAlike(p, q, opponent, opponent, seed, index, participants);
    MatchAlike(opponent, opponent, p, q, seed, index, participants);
  }

  lemma SelfInterchangeable(p: Player)
    ensures Interchangeable(p, p)
  {}
}
