/** The strategy virtual machine: byte programs over an eight-slot byte stack, forward jumps only. */
module Vm {
  import opened Options
  import opened Rng
  import opened Moves

  const MAX_BYTECODE_LEN: nat := 64
  const MAX_FUEL: nat := 128
  const STACK_SIZE: nat := 8

  const COOP: Byte := 0x00
  const PUSH: Byte := 0x01
  const OPP_LAST: Byte := 0x02
  const MY_LAST: Byte := 0x03
  const OPP_N: Byte := 0x04
  const MY_N: Byte := 0x05
  const OPP_DEFECTS: Byte := 0x06
  const MY_DEFECTS: Byte := 0x07
  const ROUND: Byte := 0x08
  const RAND: Byte := 0x09
  const ADD: Byte := 0x0A
  const SUB: Byte := 0x0B
  const MUL: Byte := 0x0C
  const GT: Byte := 0x0D
  const LT: Byte := 0x0E
  const EQ: Byte := 0x0F
  const NOT: Byte := 0x10
  const AND: Byte := 0x11
  const OR: Byte := 0x12
  const DUP: Byte := 0x13
  const JMP_FWD: Byte := 0x14
  const JMP_FWD_IF: Byte := 0x15
  const DEFECT: Byte := 0x16
  const SCORE_LAST: Byte := 0x17
  const RETURN: Byte := 0x18

  datatype Fault = Underflow | Overflow | Truncated | UnknownOpcode | FellOffEnd | FuelExhausted

  /** What one execution can read. */
  datatype Env = Env(code: seq<Byte>, opp: History, mine: History, round: Byte)

  datatype State = State(pc: nat, stack: seq<Byte>, rng: SeededRng)

  /** A finished run: a move or a fault, and the generator it leaves behind. */
  datatype Outcome =
    | Played(move: Move, rng: SeededRng)
    | Failed(fault: Fault, rng: SeededRng)
  {
    /** The source's view: every fault is an absent move. */
    function Move(): Option<Move> { if Played? then Some(move) else None }
  }

  datatype StepResult = Continue(next: State) | Halt(outcome: Outcome)

  // ----- operand classes -----

  /** Opcodes that push one value read from the environment or the generator. */
  predicate IsSource(op: Byte) {
    op == OPP_LAST || op == MY_LAST || op == OPP_DEFECTS || op == MY_DEFECTS
    || op == ROUND || op == RAND || op == SCORE_LAST
  }

  predicate IsUnary(op: Byte) { op == OPP_N || op == MY_N || op == NOT }

  predicate IsBinary(op: Byte) {
    op == ADD || op == SUB || op == MUL || op == GT || op == LT || op == EQ || op == AND || op == OR
  }

  function SourceValue(env: Env, op: Byte, rng: SeededRng): (r: (SeededRng, Byte))
    requires IsSource(op)
  {
    if op == OPP_LAST then (rng, LastBit(env.opp))
    else if op == MY_LAST then (rng, LastBit(env.mine))
    else if op == OPP_DEFECTS then (rng, DefectByte(env.opp))
    else if op == MY_DEFECTS then (rng, DefectByte(env.mine))
    else if op == ROUND then (rng, env.round)
    else if op == RAND then NextPercent(rng)
    else (rng, LastScore(env.opp, env.mine))
  }

  function UnaryValue(env: Env, op: Byte, a: Byte): Byte
    requires IsUnary(op)
  {
    if op == OPP_N then BitAgo(env.opp, a)
    else if op == MY_N then BitAgo(env.mine, a)
    else if a == 0 then 1 else 0
  }

  function Flag(b: bool): Byte { if b then 1 else 0 }

  function Saturate(x: int): Byte { if x < 0 then 0 else if x > 255 then 255 else x }

  function BinaryValue(op: Byte, a: Byte, b: Byte): Byte
    requires IsBinary(op)
  {
    if op == ADD then Saturate(a + b)
    else if op == SUB then Saturate(a - b)
    else if op == MUL then Saturate(a * b)
    else if op == GT then Flag(a > b)
    else if op == LT then Flag(a < b)
    else if op == EQ then Flag(a == b)
    else if op == AND then Flag(a != 0 && b != 0)
    else Flag(a != 0 || b != 0)
  }

  // ----- one instruction -----

  function Top(s: seq<Byte>): Byte
    requires s != []
  {
    s[|s| - 1]
  }

  function Drop(s: seq<Byte>): seq<Byte>
    requires s != []
  {
    s[..|s| - 1]
  }

  function PushAnd(stack: seq<Byte>, v: Byte, pc: nat, rng: SeededRng): StepResult {
    if |stack| >= STACK_SIZE then Halt(Failed(Overflow, rng)) else Continue(State(pc, stack + [v], rng))
  }

  function Step(env: Env, st: State): (r: StepResult)
    requires st.pc < |env.code| && |st.stack| <= STACK_SIZE
    ensures r.Continue? ==> st.pc < r.next.pc && |r.next.stack| <= STACK_SIZE
  {
    var State(pc, stack, rng) := st;
    var op := env.code[pc];
    if op == COOP then Halt(Played(Cooperate, rng))
    else if op == DEFECT then Halt(Played(Defect, rng))
    else if op == RETURN then
      if stack == [] then Halt(Failed(Underflow, rng))
      else Halt(Played(if Top(stack) == 0 then Cooperate else Defect, rng))
    else if op == PUSH then
      if pc + 1 >= |env.code| then Halt(Failed(Truncated, rng))
      else PushAnd(stack, env.code[pc + 1], pc + 2, rng)
    else if IsSource(op) then
      var (rng', v) := SourceValue(env, op, rng);
      PushAnd(stack, v, pc + 1, rng')
    else if IsUnary(op) then
      if stack == [] then Halt(Failed(Underflow, rng))
      else PushAnd(Drop(stack), UnaryValue(env, op, Top(stack)), pc + 1, rng)
    else if IsBinary(op) then
      if |stack| < 2 then Halt(Failed(Underflow, rng))
      else
        var below := Drop(stack);
        PushAnd(Drop(below), BinaryValue(op, Top(below), Top(stack)), pc + 1, rng)
    else if op == DUP then
      if stack == [] then Halt(Failed(Underflow, rng))
      else PushAnd(stack, Top(stack), pc + 1, rng)
    else if op == JMP_FWD then
      if pc + 1 >= |env.code| then Halt(Failed(Truncated, rng))
      else Continue(State(pc + 2 + env.code[pc + 1], stack, rng))
    else if op == JMP_FWD_IF then
      if stack == [] then Halt(Failed(Underflow, rng))
      else if pc + 1 >= |env.code| then Halt(Failed(Truncated, rng))
      else if Top(stack) != 0 then Continue(State(pc + 2 + env.code[pc + 1], Drop(stack), rng))
      else Continue(State(pc + 2, Drop(stack), rng))
    else Halt(Failed(UnknownOpcode, rng))
  }

  // ----- whole runs -----

  /** Fuel-free semantics: every step moves forward, so the code length bounds the run. */
  function Run(env: Env, st: State): Outcome
    requires |st.stack| <= STACK_SIZE
    decreases |env.code| - st.pc
  {
    if st.pc >= |env.code| then Failed(FellOffEnd, st.rng)
    else
      match Step(env, st)
      case Halt(outcome) => outcome
      case Continue(next) => Run(env, next)
  }

  /** The same with an instruction budget, checked before each instruction. */
  function RunFueled(env: Env, st: State, fuel: nat): Outcome
    requires |st.stack| <= STACK_SIZE
    decreases fuel
  {
    if st.pc >= |env.code| then Failed(FellOffEnd, st.rng)
    else if fuel == 0 then Failed(FuelExhausted, st.rng)
    else
      match Step(env, st)
      case Halt(outcome) => outcome
      case Continue(next) => RunFueled(env, next, fuel - 1)
  }

  function Start(rng: SeededRng): State { State(0, [], rng) }

  /** Any fault plays Cooperate. */
  function ExecuteBytecode(env: Env, rng: SeededRng): Move {
    match RunFueled(env, Start(rng), MAX_FUEL)
    case Played(move, _) => move
    case Failed(_, _) => Cooperate
  }

  /** One unit of fuel per remaining byte is enough. */
  lemma {:induction false} FuelSuffices(env: Env, st: State, fuel: nat)
    requires |st.stack| <= STACK_SIZE && |env.code| <= st.pc + fuel
    ensures RunFueled(env, st, fuel) == Run(env, st)
    decreases fuel
  {
    if st.pc < |env.code| {
      var r := Step(env, st);
      hide Step;
      if r.Continue? {
        FuelSuffices(env, r.next, fuel - 1);
      }
    }
  }

  /** Programs of up to 128 bytes never exhaust their fuel, on any histories and generator. */
  lemma FuelNeverFires(env: Env, rng: SeededRng)
    requires |env.code| <= 128
    ensures RunFueled(env, Start(rng), MAX_FUEL) == Run(env, Start(rng))
    ensures Run(env, Start(rng)).Failed? ==> Run(env, Start(rng)).fault != FuelExhausted
  {
    FuelSuffices(env, Start(rng), MAX_FUEL);
    NoFuelFault(env, Start(rng));
  }

  lemma {:induction false} NoFuelFault(env: Env, st: State)
    requires |st.stack| <= STACK_SIZE
    ensures Run(env, st).Failed? ==> Run(env, st).fault != FuelExhausted
    decreases |env.code| - st.pc
  {
    if st.pc < |env.code| && Step(env, st).Continue? {
      NoFuelFault(env, Step(env, st).next);
    }
  }

  // ----- the bound is tight -----

  /** 129 one-byte instructions: read a bit, negate it 127 times, defect. */
  function LongProgram(): (code: seq<Byte>)
    ensures |code| == 129 && code[0] == OPP_LAST && code[128] == DEFECT
    ensures forall i :: 1 <= i < 128 ==> code[i] == NOT
  {
    [OPP_LAST] + seq(127, _ => NOT) + [DEFECT]
  }

  lemma {:induction false} NegationChain(env: Env, pc: nat, b: Byte, rng: SeededRng)
    requires env.code == LongProgram() && 1 <= pc <= MAX_FUEL
    ensures Run(env, State(pc, [b], rng)) == Played(Defect, rng)
    ensures RunFueled(env, State(pc, [b], rng), MAX_FUEL - pc) == Failed(FuelExhausted, rng)
    decreases MAX_FUEL - pc
  {
    hide LongProgram, Step, UnaryValue;
    NegationStep(env, pc, b, rng);
    if pc < MAX_FUEL { NegationChain(env, pc + 1, UnaryValue(env, NOT, b), rng); }
  }

  lemma NegationStep(env: Env, pc: nat, b: Byte, rng: SeededRng)
    requires env.code == LongProgram() && 1 <= pc <= 128
    ensures Step(env, State(pc, [b], rng))
         == if pc < 128 then Continue(State(pc + 1, [UnaryValue(env, NOT, b)], rng)) else Halt(Played(Defect, rng))
  {
    hide LongProgram, UnaryValue, SourceValue, BinaryValue;
  }

  /** At 129 bytes the budget can cut a run short of its move. */
  lemma FuelBoundTight(opp: History, mine: History, round: Byte, rng: SeededRng)
    ensures var env := Env(LongProgram(), opp, mine, round);
            && Run(env, Start(rng)) == Played(Defect, rng)
            && RunFueled(env, Start(rng), MAX_FUEL) == Failed(FuelExhausted, rng)
  {
    hide LongProgram;
    var env := Env(LongProgram(), opp, mine, round);
    var b := LastBit(opp);
    assert Step(env, Start(rng)) == Continue(State(1, [b], rng));
    NegationChain(env, 1, b, rng);
  }
}
