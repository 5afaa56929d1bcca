/**
 What each opcode computes, observed from outside: programs written byte by byte, and the move they make for
 all operands, histories and generators.
 */
module Opcodes {
  import opened Rng
  import opened Moves
  import opened Vm
  import opened Strategies
  import opened Parity

  /** The program defects in this situation. */
  predicate DefectsIn(code: seq<Byte>, opp: History, mine: History, round: Byte, rng: SeededRng) {
    PlayOne(Custom(code), opp, mine, round, rng) == Defect
  }

  /** Programs of up to 64 bytes play what they return, and cooperate on a fault. */
  lemma Observed(env: Env, rng: SeededRng)
    requires |env.code| <= 64
    ensures DefectsIn(env.code, env.opp, env.mine, env.round, rng)
       <==> Run(env, Start(rng)).Played? && Run(env, Start(rng)).move == Defect
  {
    hide Run, RunFueled, ExecuteBytecode;
    ShortRun(env.code, env.opp, env.mine, env.round, rng);
  }

  /** PUSH c, EQ, RETURN after a value: defects exactly if the value is c. */
  lemma Probe(env: Env, pc: nat, v: Byte, c: Byte, rng: SeededRng)
    requires pc + 4 <= |env.code| && env.code[pc..pc + 4] == [0x01, c, 0x0F, 0x18]
    ensures Run(env, State(pc, [v], rng)) == Played(if v == c then Defect else Cooperate, rng)
  {
    hide Run, Step;
    assert env.code[pc] == env.code[pc..pc + 4][0] && env.code[pc + 1] == env.code[pc..pc + 4][1];
    assert env.code[pc + 2] == env.code[pc..pc + 4][2] && env.code[pc + 3] == env.code[pc..pc + 4][3];
    GoPush(env, pc, [v], [v, c], rng);
    GoBinary(env, pc + 2, v, c, Flag(v == c), rng);
    StopReturn(env, pc + 3, Flag(v == c), rng);
  }

  /** PUSH a, PUSH b and a binary opcode, probed for c. */
  function BinaryProbe(op: Byte, a: Byte, b: Byte, c: Byte): seq<Byte> { [0x01, a, 0x01, b, op, 0x01, c, 0x0F, 0x18] }

  lemma BinaryRun(op: Byte, a: Byte, b: Byte, c: Byte, opp: History, mine: History, round: Byte, rng: SeededRng)
    requires IsBinary(op)
    ensures DefectsIn(BinaryProbe(op, a, b, c), opp, mine, round, rng) <==> BinaryValue(op, a, b) == c
  {
    hide Run, Step, BinaryValue, DefectsIn, IsBinary;
    var env := Env(BinaryProbe(op, a, b, c), opp, mine, round);
    Observed(env, rng);
    GoPush(env, 0, [], [a], rng);
    GoPush(env, 2, [a], [a, b], rng);
    GoBinary(env, 4, a, b, BinaryValue(op, a, b), rng);
    assert env.code[5..9] == [0x01, c, 0x0F, 0x18];
    Probe(env, 5, BinaryValue(op, a, b), c, rng);
  }

  /** ADD, SUB and MUL saturate to a byte; SUB takes the upper operand from the lower. */
  lemma Arithmetic(a: Byte, b: Byte, c: Byte, opp: History, mine: History, round: Byte, rng: SeededRng)
    ensures DefectsIn(BinaryProbe(0x0A, a, b, c), opp, mine, round, rng) <==> c == (if a + b > 255 then 255 else a + b)
    ensures DefectsIn(BinaryProbe(0x0B, a, b, c), opp, mine, round, rng) <==> c == (if a < b then 0 else a - b)
    ensures DefectsIn(BinaryProbe(0x0C, a, b, c), opp, mine, round, rng) <==> c == (if a * b > 255 then 255 else a * b)
  {
    hide DefectsIn;
    BinaryRun(0x0A, a, b, c, opp, mine, round, rng);
    BinaryRun(0x0B, a, b, c, opp, mine, round, rng);
    BinaryRun(0x0C, a, b, c, opp, mine, round, rng);
    assert 0 <= a * b;
  }

  /** GT, LT and EQ compare the lower operand with the upper one and leave 1 or 0. */
  lemma Comparison(a: Byte, b: Byte, c: Byte, opp: History, mine: History, round: Byte, rng: SeededRng)
    ensures DefectsIn(BinaryProbe(0x0D, a, b, c), opp, mine, round, rng) <==> c == (if a > b then 1 else 0)
    ensures DefectsIn(BinaryProbe(0x0E, a, b, c), opp, mine, round, rng) <==> c == (if a < b then 1 else 0)
    ensures DefectsIn(BinaryProbe(0x0F, a, b, c), opp, mine, round, rng) <==> c == (if a == b then 1 else 0)
  {
    hide DefectsIn;
    BinaryRun(0x0D, a, b, c, opp, mine, round, rng);
    BinaryRun(0x0E, a, b, c, opp, mine, round, rng);
    BinaryRun(0x0F, a, b, c, opp, mine, round, rng);
  }

  /** AND and OR treat every nonzero byte as true. */
  lemma Logic(a: Byte, b: Byte, c: Byte, opp: History, mine: History, round: Byte, rng: SeededRng)
    ensures DefectsIn(BinaryProbe(0x11, a, b, c), opp, mine, round, rng) <==> c == (if a == 0 || b == 0 then 0 else 1)
    ensures DefectsIn(BinaryProbe(0x12, a, b, c), opp, mine, round, rng) <==> c == (if a == 0 && b == 0 then 0 else 1)
  {
    hide DefectsIn;
    BinaryRun(0x11, a, b, c, opp, mine, round, rng);
    BinaryRun(0x12, a, b, c, opp, mine, round, rng);
  }

  /** PUSH a and a unary opcode, probed for c. */
  function UnaryProbe(op: Byte, a: Byte, c: Byte): seq<Byte> { [0x01, a, op, 0x01, c, 0x0F, 0x18] }

  lemma UnaryRun(op: Byte, a: Byte, c: Byte, opp: History, mine: History, round: Byte, rng: SeededRng)
    requires IsUnary(op)
    ensures DefectsIn(UnaryProbe(op, a, c), opp, mine, round, rng)
       <==> UnaryValue(Env(UnaryProbe(op, a, c), opp, mine, round), op, a) == c
  {
    hide Run, Step, UnaryValue, DefectsIn, IsUnary;
    var env := Env(UnaryProbe(op, a, c), opp, mine, round);
    Observed(env, rng);
    GoPush(env, 0, [], [a], rng);
    GoUnary(env, 2, [a], [UnaryValue(env, op, a)], rng);
    assert env.code[3..7] == [0x01, c, 0x0F, 0x18];
    Probe(env, 3, UnaryValue(env, op, a), c, rng);
  }

  /** The move n rounds before the last one, as 1 for a defection; rounds before the match read as cooperation. */
  function Recalled(h: History, n: nat): Byte { if n < |h| && h[|h| - 1 - n] == Defect then 1 else 0 }

  /** OPP_N and MY_N look back, NOT negates. */
  lemma Recall(a: Byte, c: Byte, opp: History, mine: History, round: Byte, rng: SeededRng)
    ensures DefectsIn(UnaryProbe(0x04, a, c), opp, mine, round, rng) <==> c == Recalled(opp, a)
    ensures DefectsIn(UnaryProbe(0x05, a, c), opp, mine, round, rng) <==> c == Recalled(mine, a)
    ensures DefectsIn(UnaryProbe(0x10, a, c), opp, mine, round, rng) <==> c == (if a == 0 then 1 else 0)
  {
    hide DefectsIn;
    UnaryRun(0x04, a, c, opp, mine, round, rng);
    UnaryRun(0x05, a, c, opp, mine, round, rng);
    UnaryRun(0x10, a, c, opp, mine, round, rng);
  }

  /** An opcode that reads the match, probed for c. */
  function SourceProbe(op: Byte, c: Byte): seq<Byte> { [op, 0x01, c, 0x0F, 0x18] }

  lemma SourceRun(op: Byte, c: Byte, opp: History, mine: History, round: Byte, rng: SeededRng)
    requires IsSource(op)
    ensures DefectsIn(SourceProbe(op, c), opp, mine, round, rng)
       <==> SourceValue(Env(SourceProbe(op, c), opp, mine, round), op, rng).1 == c
  {
    hide Run, Step, SourceValue, DefectsIn, IsSource;
    var env := Env(SourceProbe(op, c), opp, mine, round);
    var (rng', v) := SourceValue(env, op, rng);
    Observed(env, rng);
    GoRead(env, 0, rng);
    assert env.code[1..5] == [0x01, c, 0x0F, 0x18];
    Probe(env, 1, v, c, rng');
  }

  lemma GoRead(env: Env, pc: nat, rng: SeededRng)
    requires pc < |env.code| && IsSource(env.code[pc])
    ensures var (rng', v) := SourceValue(env, env.code[pc], rng);
            Run(env, State(pc, [], rng)) == Run(env, State(pc + 1, [v], rng'))
  {
    hide Run, SourceValue;
    var (rng', v) := SourceValue(env, env.code[pc], rng);
    Go(env, State(pc, [], rng), State(pc + 1, [v], rng'));
  }

  /** The rounds in which a player defected. */
  ghost function DefectRounds(h: History): set<nat> { set i: nat | i < |h| && h[i] == Defect }

  lemma {:induction false} DefectsCounted(h: History)
    ensures Defects(h) == |DefectRounds(h)|
  {
    if h != [] {
      var last, front := |h| - 1, h[..|h| - 1];
      DefectsCounted(front);
      if h[last] == Defect {
        assert DefectRounds(h) == DefectRounds(front) + {last};
      } else {
        assert DefectRounds(h) == DefectRounds(front);
      }
    }
  }

  /** OPP_LAST, MY_LAST, the two defection counters capped at 255, and ROUND. */
  lemma Reading(c: Byte, opp: History, mine: History, round: Byte, rng: SeededRng)
    ensures DefectsIn(SourceProbe(0x02, c), opp, mine, round, rng) <==> c == Recalled(opp, 0)
    ensures DefectsIn(SourceProbe(0x03, c), opp, mine, round, rng) <==> c == Recalled(mine, 0)
    ensures DefectsIn(SourceProbe(0x06, c), opp, mine, round, rng)
       <==> c == (if |DefectRounds(opp)| > 255 then 255 else |DefectRounds(opp)|)
    ensures DefectsIn(SourceProbe(0x07, c), opp, mine, round, rng)
       <==> c == (if |DefectRounds(mine)| > 255 then 255 else |DefectRounds(mine)|)
    ensures DefectsIn(SourceProbe(0x08, c), opp, mine, round, rng) <==> c == round
  {
    hide DefectsIn, Defects;
    DefectsCounted(opp);
    DefectsCounted(mine);
    SourceRun(0x02, c, opp, mine, round, rng);
    SourceRun(0x03, c, opp, mine, round, rng);
    SourceRun(0x06, c, opp, mine, round, rng);
    SourceRun(0x07, c, opp, mine, round, rng);
    SourceRun(0x08, c, opp, mine, round, rng);
  }

  /** SCORE_LAST: 3 before the first round, then the own points of the last one. */
  lemma ScoreReading(c: Byte, opp: History, mine: History, round: Byte, rng: SeededRng)
    requires |opp| == |mine|
    ensures DefectsIn(SourceProbe(0x17, c), opp, mine, round, rng)
       <==> c == (if mine == [] then 3
                  else if Last(mine) == Cooperate then (if Last(opp) == Cooperate then 3 else 0)
                  else if Last(opp) == Cooperate then 5 else 1)
  {
    hide DefectsIn;
    SourceRun(0x17, c, opp, mine, round, rng);
  }

  /** RAND draws a percentage: RAND, PUSH 50, LT, NOT, RETURN is the builtin Random. */
  const RANDOM_LISTING: seq<Byte> := [0x09, 0x01, 50, 0x0E, 0x10, 0x18]

  lemma RandomListing(opp: History, mine: History, round: Byte, rng: SeededRng)
    ensures PlayOne(Custom(RANDOM_LISTING), opp, mine, round, rng) == PlayOne(Builtin(Random), opp, mine, round, rng)
  {
    hide Run, Step, RunFueled, ExecuteBytecode, NextPercent;
    var env := Env(RANDOM_LISTING, opp, mine, round);
    var (rng', v) := NextPercent(rng);
    ShortRun(RANDOM_LISTING, opp, mine, round, rng);
    GoRead(env, 0, rng);
    GoPush(env, 1, [v], [v, 50], rng');
    GoBinary(env, 3, v, 50, Flag(v < 50), rng');
    GoUnary(env, 4, [Flag(v < 50)], [Flag(v >= 50)], rng');
    StopReturn(env, 5, Flag(v >= 50), rng');
  }

  lemma GoDup(env: Env, pc: nat, v: Byte, rng: SeededRng)
    requires pc < |env.code| && env.code[pc] == 0x13
    ensures Run(env, State(pc, [v], rng)) == Run(env, State(pc + 1, [v, v], rng))
  {
    hide Run;
    Go(env, State(pc, [v], rng), State(pc + 1, [v, v], rng));
  }

  /** DUP leaves the value twice: PUSH a, DUP, ADD doubles it. */
  lemma Doubling(a: Byte, c: Byte, opp: History, mine: History, round: Byte, rng: SeededRng)
    ensures DefectsIn([0x01, a, 0x13, 0x0A, 0x01, c, 0x0F, 0x18], opp, mine, round, rng)
       <==> c == (if 2 * a > 255 then 255 else 2 * a)
  {
    hide Run, Step, DefectsIn;
    var env := Env([0x01, a, 0x13, 0x0A, 0x01, c, 0x0F, 0x18], opp, mine, round);
    Observed(env, rng);
    GoPush(env, 0, [], [a], rng);
    GoDup(env, 2, a, rng);
    GoBinary(env, 3, a, a, Saturate(2 * a), rng);
    assert env.code[4..8] == [0x01, c, 0x0F, 0x18];
    Probe(env, 4, Saturate(2 * a), c, rng);
  }

  /** COOP and DEFECT play at once, RETURN plays Defect for every nonzero byte. */
  lemma Terminals(a: Byte, opp: History, mine: History, round: Byte, rng: SeededRng)
    ensures !DefectsIn([0x00], opp, mine, round, rng) && DefectsIn([0x16], opp, mine, round, rng)
    ensures DefectsIn([0x01, a, 0x18], opp, mine, round, rng) <==> a != 0
  {
    hide Run, DefectsIn;
    var coop, defect := Env([0x00], opp, mine, round), Env([0x16], opp, mine, round);
    var ret := Env([0x01, a, 0x18], opp, mine, round);
    Observed(coop, rng);
    Observed(defect, rng);
    Observed(ret, rng);
    Stop(coop, Start(rng), Played(Cooperate, rng));
    Stop(defect, Start(rng), Played(Defect, rng));
    GoPush(ret, 0, [], [a], rng);
    StopReturn(ret, 2, a, rng);
  }

  lemma GoJump(env: Env, pc: nat, rng: SeededRng)
    requires pc + 1 < |env.code| && env.code[pc] == 0x14
    ensures Run(env, State(pc, [], rng)) == Run(env, State(Target(env.code, pc), [], rng))
  {
    hide Run;
    Go(env, State(pc, [], rng), State(Target(env.code, pc), [], rng));
  }

  /** A jump counts from the byte after its offset; the conditional one is taken for every nonzero byte. */
  lemma Jumps(a: Byte, opp: History, mine: History, round: Byte, rng: SeededRng)
    ensures DefectsIn([0x14, 0, 0x16, 0x00], opp, mine, round, rng)
    ensures !DefectsIn([0x14, 1, 0x16, 0x00], opp, mine, round, rng)
    ensures DefectsIn([0x01, a, 0x15, 1, 0x16, 0x00], opp, mine, round, rng) <==> a == 0
  {
    hide Run, DefectsIn;
    var stay, skip := Env([0x14, 0, 0x16, 0x00], opp, mine, round), Env([0x14, 1, 0x16, 0x00], opp, mine, round);
    Observed(stay, rng);
    Observed(skip, rng);
    GoJump(stay, 0, rng);
    GoJump(skip, 0, rng);
    Stop(stay, State(2, [], rng), Played(Defect, rng));
    Stop(skip, State(3, [], rng), Played(Cooperate, rng));
    ConditionalJump(a, opp, mine, round, rng);
  }

  lemma GoBranch(env: Env, pc: nat, a: Byte, rng: SeededRng)
    requires pc + 1 < |env.code| && env.code[pc] == 0x15
    ensures Run(env, State(pc, [a], rng)) == Run(env, State(if a != 0 then Target(env.code, pc) else pc + 2, [], rng))
  {
    hide Run;
    Go(env, State(pc, [a], rng), State(if a != 0 then Target(env.code, pc) else pc + 2, [], rng));
  }

  lemma ConditionalJump(a: Byte, opp: History, mine: History, round: Byte, rng: SeededRng)
    ensures DefectsIn([0x01, a, 0x15, 1, 0x16, 0x00], opp, mine, round, rng) <==> a == 0
  {
    hide Run, DefectsIn;
    var env := Env([0x01, a, 0x15, 1, 0x16, 0x00], opp, mine, round);
    Observed(env, rng);
    GoPush(env, 0, [], [a], rng);
    GoBranch(env, 2, a, rng);
    Stop(env, State(4, [], rng), Played(Defect, rng));
    Stop(env, State(5, [], rng), Played(Cooperate, rng));
  }

  // ----- faults -----

  /** n times PUSH 1, then RETURN. */
  function Tower(n: nat): seq<Byte> { seq(2 * n, i => 1) + [0x18] }

  lemma {:induction false} TowerRuns(env: Env, n: nat, k: nat, rng: SeededRng)
    requires env.code == Tower(n) && k <= n && k <= 8
    ensures Run(env, Start(rng)) == Run(env, State(2 * k, seq(k, i => 1), rng))
  {
    hide Run, Step;
    if k > 0 {
      TowerRuns(env, n, k - 1, rng);
      assert seq(k, i => 1 as Byte) == seq(k - 1, i => 1 as Byte) + [1];
      GoPush(env, 2 * (k - 1), seq(k - 1, i => 1), seq(k, i => 1), rng);
    } else {
      assert seq(0, i => 1 as Byte) == [];
    }
  }

  lemma ReturnTop(env: Env, pc: nat, s: seq<Byte>, rng: SeededRng)
    requires pc < |env.code| && env.code[pc] == 0x18 && 0 < |s| <= 8 && s[|s| - 1] == 1
    ensures Run(env, State(pc, s, rng)) == Played(Defect, rng)
  {
    hide Run;
    Stop(env, State(pc, s, rng), Played(Defect, rng));
  }

  lemma NinthPush(env: Env, pc: nat, s: seq<Byte>, rng: SeededRng)
    requires pc + 1 < |env.code| && env.code[pc] == 0x01 && |s| == 8
    ensures Run(env, State(pc, s, rng)) == Failed(Overflow, rng)
  {
    hide Run;
    Stop(env, State(pc, s, rng), Failed(Overflow, rng));
  }

  /** The stack holds eight bytes: one to eight values can be pushed and returned, none or nine cannot. */
  lemma StackLimit(n: nat, opp: History, mine: History, round: Byte, rng: SeededRng)
    requires 2 * n < 64
    ensures DefectsIn(Tower(n), opp, mine, round, rng) <==> 1 <= n <= 8
  {
    hide Run, Step, DefectsIn;
    var env := Env(Tower(n), opp, mine, round);
    Observed(env, rng);
    if n == 0 {
      ReturnEmpty(env, rng);
    } else if n <= 8 {
      TowerRuns(env, n, n, rng);
      ReturnTop(env, 2 * n, seq(n, i => 1), rng);
    } else {
      TowerRuns(env, n, 8, rng);
      NinthPush(env, 16, seq(8, i => 1), rng);
    }
  }

  lemma ReturnEmpty(env: Env, rng: SeededRng)
    requires 0 < |env.code| && env.code[0] == 0x18
    ensures Run(env, Start(rng)) == Failed(Underflow, rng)
  {
    hide Run;
    Stop(env, Start(rng), Failed(Underflow, rng));
  }

  /** Bytes above 0x18 are no opcodes. */
  lemma NoOpcode(op: Byte, env: Env, rng: SeededRng)
    requires op > 0x18 && env.code == [op]
    ensures Run(env, Start(rng)) == Failed(UnknownOpcode, rng)
  {
    hide Run;
    Stop(env, Start(rng), Failed(UnknownOpcode, rng));
  }
}
