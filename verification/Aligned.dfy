/** Programs whose jumps land on instruction boundaries can fail only for lack of stack or of a terminal. */
module Aligned {
  import opened Options
  import opened Rng
  import opened Moves
  import opened Vm
  import opened Codec

  /** First byte of the j-th instruction. */
  function Offset(prog: Program, j: nat): nat
    requires j <= |prog|
  {
    if j == 0 then 0 else Offset(prog, j - 1) + |Bytes(prog[j - 1])|
  }

  ghost predicate Boundary(prog: Program, pc: nat) {
    exists j: nat :: j <= |prog| && pc == Offset(prog, j)
  }

  ghost predicate JumpsAligned(prog: Program) {
    forall j: nat :: j < |prog| && (prog[j].Jump? || prog[j].JumpIf?) ==>
      Boundary(prog, Offset(prog, j) + 2 + prog[j].offset)
  }

  lemma {:induction false} OffsetTail(prog: Program, j: nat)
    requires 1 <= j <= |prog|
    ensures Offset(prog, j) == |Bytes(prog[0])| + Offset(prog[1..], j - 1)
  {
    if j > 1 {
      OffsetTail(prog, j - 1);
    }
  }

  /** The bytes of the j-th instruction sit at its offset. */
  lemma {:induction false} BytesAtOffset(prog: Program, j: nat)
    requires j < |prog|
    ensures Offset(prog, j) + |Bytes(prog[j])| <= |Encode(prog)|
    ensures Encode(prog)[Offset(prog, j)..Offset(prog, j) + |Bytes(prog[j])|] == Bytes(prog[j])
    decreases j
  {
    hide Bytes;
    if j > 0 {
      OffsetTail(prog, j);
      BytesAtOffset(prog[1..], j - 1);
    }
  }

  lemma {:induction false} OffsetEnd(prog: Program)
    ensures Offset(prog, |prog|) == |Encode(prog)|
  {
    if prog != [] {
      OffsetTail(prog, |prog|);
      OffsetEnd(prog[1..]);
    }
  }

  ghost predicate StackOrEnd(o: Outcome) {
    o.Failed? ==> o.fault == Underflow || o.fault == Overflow || o.fault == FellOffEnd
  }

  /** On a decodable instruction a step stops for want of stack only, else falls through or jumps. */
  lemma StepOnInstr(env: Env, st: State)
    requires st.pc < |env.code| && |st.stack| <= STACK_SIZE && InstrAt(env.code, st.pc).Some?
    ensures var i := InstrAt(env.code, st.pc).value;
            match Step(env, st)
            case Halt(o) => StackOrEnd(o)
            case Continue(next) =>
              || next.pc == st.pc + |Bytes(i)|
              || ((i.Jump? || i.JumpIf?) && next.pc == st.pc + 2 + i.offset)
  {
    hide SourceValue, UnaryValue, BinaryValue;
  }

  lemma FetchSlice(code: seq<Byte>, at: nat, i: Instr)
    requires WellFormed(i) && at + |Bytes(i)| <= |code| && code[at..at + |Bytes(i)|] == Bytes(i)
    ensures InstrAt(code, at) == Some(i)
  {
    var b := Bytes(i);
    assert code[at] == code[at..at + |b|][0];
    assert |b| == 2 ==> code[at + 1] == code[at..at + |b|][1];
  }

  /** Instruction fetch at an offset of the encoding reads that instruction. */
  lemma FetchAtOffset(prog: Program, j: nat)
    requires j < |prog| && WellFormed(prog[j])
    ensures Offset(prog, j) < |Encode(prog)| && InstrAt(Encode(prog), Offset(prog, j)) == Some(prog[j])
  {
    hide Encode, Offset, Bytes, InstrAt, WellFormed;
    BytesAtOffset(prog, j);
    FetchSlice(Encode(prog), Offset(prog, j), prog[j]);
  }

  lemma StepAligned(env: Env, prog: Program, st: State, j: nat)
    requires env.code == Encode(prog) && AllWellFormed(prog) && JumpsAligned(prog)
    requires j < |prog| && st.pc == Offset(prog, j) && st.pc < |env.code| && |st.stack| <= STACK_SIZE
    ensures match Step(env, st)
            case Halt(o) => StackOrEnd(o)
            case Continue(next) => Boundary(prog, next.pc)
  {
    hide Step, Encode, StackOrEnd, WellFormed, InstrAt;
    FetchAtOffset(prog, j);
    StepOnInstr(env, st);
    assert Boundary(prog, st.pc + |Bytes(prog[j])|) by { assert Offset(prog, j + 1) == st.pc + |Bytes(prog[j])|; }
  }

  lemma {:induction false} RunAligned(env: Env, prog: Program, st: State)
    requires env.code == Encode(prog) && AllWellFormed(prog) && JumpsAligned(prog)
    requires Boundary(prog, st.pc) && |st.stack| <= STACK_SIZE
    ensures StackOrEnd(Run(env, st))
    decreases |env.code| - st.pc
  {
    hide Step, Encode;
    if st.pc < |env.code| {
      var j: nat :| j <= |prog| && st.pc == Offset(prog, j);
      OffsetEnd(prog);
      StepAligned(env, prog, st, j);
      if Step(env, st).Continue? {
        RunAligned(env, prog, Step(env, st).next);
      }
    }
  }

  /** From the start, on any histories and generator. */
  lemma AlignedProgramFaults(env: Env, prog: Program, rng: SeededRng)
    requires env.code == Encode(prog) && AllWellFormed(prog) && JumpsAligned(prog)
    ensures StackOrEnd(Run(env, Start(rng)))
  {
    assert Offset(prog, 0) == 0;
    RunAligned(env, prog, Start(rng));
  }

  /** The validator does not check alignment: an accepted program can jump into an immediate. */
  lemma MisalignedJumpAccepted(opp: History, mine: History, round: Byte, rng: SeededRng)
    ensures var code: seq<Byte> := [JMP_FWD, 1, PUSH, 255, COOP];
            && Validate(code).Accepted?
            && Run(Env(code, opp, mine, round), Start(rng)) == Failed(UnknownOpcode, rng)
  {
    var code: seq<Byte> := [JMP_FWD, 1, PUSH, 255, COOP];
    assert Sweep(code, 5, true) == Accepted;
    assert Sweep(code, 4, false) == Accepted;
    assert Sweep(code, 2, false) == Accepted;
    var env := Env(code, opp, mine, round);
    assert Step(env, Start(rng)) == Continue(State(3, [], rng));
    assert Step(env, State(3, [], rng)) == Halt(Failed(UnknownOpcode, rng));
  }
}
