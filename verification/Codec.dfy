/** Bytecode validation: the linear sweep accepts exactly the encodings of well-formed programs. */
module Codec {
  import opened Options
  import opened Rng
  import opened Vm

  datatype Instr =
    | Plain(op: Byte)
    | PushImm(imm: Byte)
    | Jump(offset: Byte)
    | JumpIf(offset: Byte)

  type Program = seq<Instr>

  predicate IsTerminalOp(op: Byte) { op == COOP || op == DEFECT || op == RETURN }

  predicate IsPlainOp(op: Byte) {
    IsTerminalOp(op) || IsSource(op) || IsUnary(op) || IsBinary(op) || op == DUP
  }

  predicate WellFormed(i: Instr) { i.Plain? ==> IsPlainOp(i.op) }

  predicate IsTerminal(i: Instr) { i.Plain? && IsTerminalOp(i.op) }

  predicate JumpFits(i: Instr, pc: nat, end: nat) { i.Jump? || i.JumpIf? ==> pc + 2 + i.offset <= end }

  predicate AllWellFormed(prog: Program) { forall j :: 0 <= j < |prog| ==> WellFormed(prog[j]) }

  predicate HasTerminal(prog: Program) {
    exists j :: 0 <= j < |prog| && IsTerminal(prog[j])
  }

  function Bytes(i: Instr): (b: seq<Byte>)
    ensures 1 <= |b| <= 2
  {
    match i
    case Plain(op) => [op]
    case PushImm(imm) => [PUSH, imm]
    case Jump(offset) => [JMP_FWD, offset]
    case JumpIf(offset) => [JMP_FWD_IF, offset]
  }

  function Encode(prog: Program): seq<Byte> {
    if prog == [] then [] else Bytes(prog[0]) + Encode(prog[1..])
  }

  /** All jumps of a program starting at byte pc land at or before byte `end`. */
  predicate JumpsFit(prog: Program, pc: nat, end: nat) {
    prog != [] ==>
      && JumpFits(prog[0], pc, end)
      && JumpsFit(prog[1..], pc + |Bytes(prog[0])|, end)
  }

  /** What the validator promises: size, known opcodes with their immediates, bounded jumps, a terminal. */
  ghost predicate ValidProgram(prog: Program) {
    && 1 <= |Encode(prog)| <= MAX_BYTECODE_LEN
    && AllWellFormed(prog) && HasTerminal(prog) && JumpsFit(prog, 0, |Encode(prog)|)
  }

  // ----- decoding -----

  /** The instruction at byte pc, if its opcode is known and its immediate present. */
  function InstrAt(code: seq<Byte>, pc: nat): Option<Instr>
    requires pc < |code|
  {
    var op := code[pc];
    if IsPlainOp(op) then Some(Plain(op))
    else if op != PUSH && op != JMP_FWD && op != JMP_FWD_IF then None
    else if pc + 1 >= |code| then None
    else if op == PUSH then Some(PushImm(code[pc + 1]))
    else if op == JMP_FWD then Some(Jump(code[pc + 1]))
    else Some(JumpIf(code[pc + 1]))
  }

  function DecodeFrom(code: seq<Byte>, pc: nat): Option<Program>
    requires pc <= |code|
    decreases |code| - pc
  {
    if pc == |code| then Some([])
    else
      match InstrAt(code, pc)
      case None => None
      case Some(i) =>
        if pc + |Bytes(i)| > |code| then None
        else
          match DecodeFrom(code, pc + |Bytes(i)|)
          case None => None
          case Some(rest) => Some([i] + rest)
  }

  function Decode(code: seq<Byte>): Option<Program> { DecodeFrom(code, 0) }

  lemma InstrAtBytes(code: seq<Byte>, pc: nat)
    requires pc < |code| && InstrAt(code, pc).Some?
    ensures var i := InstrAt(code, pc).value;
            WellFormed(i) && pc + |Bytes(i)| <= |code| && Bytes(i) == code[pc..pc + |Bytes(i)|]
  {}

  /** Decoding then encoding gives back the bytes. */
  lemma {:induction false} EncodeDecode(code: seq<Byte>, pc: nat)
    requires pc <= |code| && DecodeFrom(code, pc).Some?
    ensures var prog := DecodeFrom(code, pc).value; AllWellFormed(prog) && Encode(prog) == code[pc..]
    decreases |code| - pc
  {
    if pc < |code| {
      hide InstrAt, WellFormed, Bytes;
      InstrAtBytes(code, pc);
      var i := InstrAt(code, pc).value;
      var next := pc + |Bytes(i)|;
      EncodeDecode(code, next);
      var rest := DecodeFrom(code, next).value;
      assert ([i] + rest)[1..] == rest;
      assert code[pc..] == code[pc..next] + code[next..];
    }
  }

  lemma InstrAtEncoded(before: seq<Byte>, i: Instr, after: seq<Byte>)
    requires WellFormed(i)
    ensures InstrAt(before + (Bytes(i) + after), |before|) == Some(i)
  {
    var code := before + (Bytes(i) + after);
    assert code[|before|] == Bytes(i)[0];
    if |Bytes(i)| == 2 { assert code[|before| + 1] == Bytes(i)[1]; }
  }

  /** Encoding then decoding gives back the program, so a byte string has at most one decoding. */
  lemma {:induction false} DecodeEncode(before: seq<Byte>, prog: Program)
    requires AllWellFormed(prog)
    ensures DecodeFrom(before + Encode(prog), |before|) == Some(prog)
    decreases |prog|
  {
    if prog != [] {
      hide InstrAt, WellFormed, Bytes;
      var i, rest := prog[0], prog[1..];
      InstrAtEncoded(before, i, Encode(rest));
      DecodeEncode(before + Bytes(i), rest);
      assert before + Encode(prog) == (before + Bytes(i)) + Encode(rest);
      assert prog == [i] + rest;
    } else {
      assert before + Encode(prog) == before;
    }
  }

  // ----- the validator -----

  datatype BytecodeError =
    | Empty
    | TooLong
    | UnknownOpcodeAt(offset: nat, opcode: Byte)
    | TruncatedImmediate(offset: nat)
    | JumpOutOfBounds(offset: nat)
    | NoTerminal

  datatype Verdict = Accepted | Rejected(error: BytecodeError)

  /** The sweep from byte pc on, given whether a terminal has been passed. */
  function Sweep(code: seq<Byte>, pc: nat, terminal: bool): Verdict
    requires pc <= |code|
    decreases |code| - pc
  {
    if pc == |code| then if terminal then Accepted else Rejected(NoTerminal)
    else
      var op := code[pc];
      if IsPlainOp(op) then Sweep(code, pc + 1, terminal || IsTerminalOp(op))
      else if op != PUSH && op != JMP_FWD && op != JMP_FWD_IF then Rejected(UnknownOpcodeAt(pc, op))
      else if pc + 1 >= |code| then Rejected(TruncatedImmediate(pc))
      else if op != PUSH && pc + 2 + code[pc + 1] > |code| then Rejected(JumpOutOfBounds(pc))
      else Sweep(code, pc + 2, terminal)
  }

  function Validate(code: seq<Byte>): Verdict {
    if code == [] then Rejected(Empty)
    else if |code| > MAX_BYTECODE_LEN then Rejected(TooLong)
    else Sweep(code, 0, false)
  }

  /** One step of the sweep in terms of the instruction it reads. */
  lemma SweepStep(code: seq<Byte>, pc: nat, terminal: bool)
    requires pc < |code|
    ensures InstrAt(code, pc).None? ==> Sweep(code, pc, terminal).Rejected?
    ensures InstrAt(code, pc).Some? ==>
              var i := InstrAt(code, pc).value;
              && pc + |Bytes(i)| <= |code|
              && (Sweep(code, pc, terminal).Accepted? <==>
                    JumpFits(i, pc, |code|) && Sweep(code, pc + |Bytes(i)|, terminal || IsTerminal(i)).Accepted?)
  {}

  /** The sweep accepts a suffix exactly when it decodes, its jumps fit and a terminal has been seen. */
  lemma {:induction false} SweepAccepts(code: seq<Byte>, pc: nat, terminal: bool)
    requires pc <= |code|
    ensures Sweep(code, pc, terminal).Accepted? <==>
            && DecodeFrom(code, pc).Some?
            && JumpsFit(DecodeFrom(code, pc).value, pc, |code|)
            && (terminal || HasTerminal(DecodeFrom(code, pc).value))
    decreases |code| - pc
  {
    if pc < |code| {
      SweepStep(code, pc, terminal);
      hide Sweep, InstrAt, Bytes, HasTerminal, JumpsFit, JumpFits, IsTerminal;
      if InstrAt(code, pc).Some? {
        var i := InstrAt(code, pc).value;
        var next := pc + |Bytes(i)|;
        SweepAccepts(code, next, terminal || IsTerminal(i));
        if DecodeFrom(code, next).Some? {
          var rest := DecodeFrom(code, next).value;
          TerminalCons(i, rest);
          JumpsFitCons(i, rest, pc, |code|);
        }
      }
    } else {
      assert DecodeFrom(code, pc) == Some([]);
    }
  }

  lemma JumpsFitCons(i: Instr, rest: Program, pc: nat, end: nat)
    ensures JumpsFit([i] + rest, pc, end) <==> JumpFits(i, pc, end) && JumpsFit(rest, pc + |Bytes(i)|, end)
  {
    assert ([i] + rest)[1..] == rest;
  }

  lemma TerminalCons(i: Instr, rest: Program)
    ensures HasTerminal([i] + rest) <==> IsTerminal(i) || HasTerminal(rest)
  {
    var prog := [i] + rest;
    if HasTerminal(rest) {
      var j :| 0 <= j < |rest| && IsTerminal(rest[j]);
      assert prog[j + 1] == rest[j];
    }
    assert prog[0] == i;
  }

  /** Accepted byte strings are exactly the encodings of valid programs. */
  lemma ValidateAccepts(code: seq<Byte>)
    ensures Validate(code).Accepted? <==> exists prog :: ValidProgram(prog) && Encode(prog) == code
  {
    SweepAccepts(code, 0, false);
    assert code[0..] == code;
    if Validate(code).Accepted? {
      EncodeDecode(code, 0);
      assert ValidProgram(Decode(code).value);
    }
    forall prog | ValidProgram(prog) && Encode(prog) == code ensures Validate(code).Accepted? {
      DecodeEncode([], prog);
      assert [] + Encode(prog) == code;
    }
  }

  // ----- what a verdict means -----

  /** Bytes 0x00 to 0x18 are opcodes; 0x01, 0x14 and 0x15 take an immediate. */
  predicate TakesImmediate(op: Byte) { op in {0x01, 0x14, 0x15} }

  /** COOP, DEFECT or RETURN. */
  predicate Ends(i: Instr) { i.Plain? && i.op in {0x00, 0x16, 0x18} }

  /** An accepted program contains a COOP, DEFECT or RETURN, and one that is rejected for lack of it does not. */
  lemma TerminalNeeded(code: seq<Byte>)
    ensures Validate(code).Accepted? ==>
              Decode(code).Some? && exists j :: 0 <= j < |Decode(code).value| && Ends(Decode(code).value[j])
    ensures Validate(code) == Rejected(NoTerminal) ==>
              Decode(code).Some? && forall j :: 0 <= j < |Decode(code).value| ==> !Ends(Decode(code).value[j])
  {
    hide Sweep, DecodeFrom, JumpsFit, IsTerminal, Ends;
    SweepAccepts(code, 0, false);
    SweepJustified(code, 0, false);
    if Decode(code).Some? {
      var prog := Decode(code).value;
      forall j | 0 <= j < |prog| ensures IsTerminal(prog[j]) <==> Ends(prog[j]) { EndsIsTerminal(prog[j]); }
      if Validate(code) == Rejected(NoTerminal) { SweepNoTerminal(code, 0, false); }
    }
  }

  lemma EndsIsTerminal(i: Instr)
    ensures IsTerminal(i) <==> Ends(i)
  {}

  lemma {:induction false} SweepNoTerminal(code: seq<Byte>, pc: nat, terminal: bool)
    requires pc <= |code| && Sweep(code, pc, terminal) == Rejected(NoTerminal) && DecodeFrom(code, pc).Some?
    ensures !HasTerminal(DecodeFrom(code, pc).value)
    decreases |code| - pc
  {
    if pc < |code| {
      var i := InstrAt(code, pc).value;
      var next := pc + |Bytes(i)|;
      SweepNoTerminal(code, next, terminal || IsTerminal(i));
      TerminalCons(i, DecodeFrom(code, next).value);
      NoTerminalSoFar(code, next, terminal || IsTerminal(i));
    }
  }

  lemma {:induction false} NoTerminalSoFar(code: seq<Byte>, pc: nat, terminal: bool)
    requires pc <= |code| && Sweep(code, pc, terminal) == Rejected(NoTerminal)
    ensures !terminal
    decreases |code| - pc
  {
    if pc < |code| {
      var op := code[pc];
      if IsPlainOp(op) {
        NoTerminalSoFar(code, pc + 1, terminal || IsTerminalOp(op));
      } else {
        NoTerminalSoFar(code, pc + 2, terminal);
      }
    }
  }

  /** The reported error is there, at the reported offset, and everything before it is in order. */
  ghost predicate Justified(code: seq<Byte>, pc: nat, e: BytecodeError) {
    match e
    case Empty => false
    case TooLong => false
    case UnknownOpcodeAt(offset, opcode) => pc <= offset < |code| && code[offset] == opcode > 0x18
    case TruncatedImmediate(offset) => pc <= offset == |code| - 1 && TakesImmediate(code[offset])
    case JumpOutOfBounds(offset) =>
      pc <= offset < |code| - 1 && code[offset] in {0x14, 0x15} && |code| < offset + 2 + code[offset + 1]
    case NoTerminal => DecodeFrom(code, if pc <= |code| then pc else 0).Some?
  }

  lemma {:induction false} SweepJustified(code: seq<Byte>, pc: nat, terminal: bool)
    requires pc <= |code|
    ensures Sweep(code, pc, terminal).Rejected? ==> Justified(code, pc, Sweep(code, pc, terminal).error)
    decreases |code| - pc
  {
    if pc < |code| {
      var op := code[pc];
      if IsPlainOp(op) {
        SweepJustified(code, pc + 1, terminal || IsTerminalOp(op));
      } else if TakesImmediate(op) && pc + 1 < |code| {
        SweepJustified(code, pc + 2, terminal);
      }
    }
  }

  /** Every rejection is justified: empty, over 64 bytes, or an error of the sweep. */
  lemma RejectionJustified(code: seq<Byte>)
    ensures Validate(code) == Rejected(Empty) <==> |code| == 0
    ensures Validate(code) == Rejected(TooLong) <==> |code| > 64
    ensures Validate(code).Rejected? && 1 <= |code| <= 64 ==> Justified(code, 0, Validate(code).error)
  {
    hide Sweep, Justified;
    SweepJustified(code, 0, false);
    SweepErrors(code);
  }

  lemma SweepErrors(code: seq<Byte>)
    ensures Sweep(code, 0, false) != Rejected(Empty) && Sweep(code, 0, false) != Rejected(TooLong)
  {
    SweepJustified(code, 0, false);
  }

  lemma {:induction false} CooperateOnly(code: seq<Byte>, pc: nat, terminal: bool)
    requires pc <= |code| && forall i :: pc <= i < |code| ==> code[i] == 0x00
    ensures Sweep(code, pc, terminal).Accepted? <==> terminal || pc < |code|
    decreases |code| - pc
  {
    if pc < |code| { CooperateOnly(code, pc + 1, true); }
  }

  /** A jump may reach the end of the program and not beyond: offset d over m one-byte instructions. */
  lemma JumpLimit(op: Byte, d: Byte, m: nat)
    requires op in {0x14, 0x15}
    ensures Validate([op, d] + seq(m, i => 0x00)).Accepted? <==> 1 <= m <= 62 && d <= m
  {
    var code: seq<Byte> := [op, d] + seq(m, i => 0x00);
    CooperateOnly(code, 2, false);
  }

  method ValidateBytecode(code: seq<Byte>) returns (verdict: Verdict)
    ensures verdict == Validate(code)
  {
    if code == [] { return Rejected(Empty); }
    if |code| > MAX_BYTECODE_LEN { return Rejected(TooLong); }
    var pc, terminal := 0, false;
    while pc < |code|
      invariant pc <= |code|
      invariant Sweep(code, 0, false) == Sweep(code, pc, terminal)
    {
      var op := code[pc];
      if op == COOP || op == DEFECT || op == RETURN {
        terminal := true;
        pc := pc + 1;
      } else if op == PUSH {
        if pc + 1 >= |code| { return Rejected(TruncatedImmediate(pc)); }
        pc := pc + 2;
      } else if op == JMP_FWD || op == JMP_FWD_IF {
        if pc + 1 >= |code| { return Rejected(TruncatedImmediate(pc)); }
        var target := pc + 2 + code[pc + 1];
        if target > |code| { return Rejected(JumpOutOfBounds(pc)); }
        pc := pc + 2;
      } else if IsSource(op) || IsUnary(op) || IsBinary(op) || op == DUP {
        pc := pc + 1;
      } else {
        return Rejected(UnknownOpcodeAt(pc, op));
      }
    }
    verdict := if terminal then Accepted else Rejected(NoTerminal);
  }
}
