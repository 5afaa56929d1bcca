/** The interpreter loop on a fixed array stack, proved against the step semantics. */
module Machine {
  import opened Options
  import opened Rng
  import opened Moves
  import opened Vm

  method Push(stack: array<Byte>, sp: nat, v: Byte) returns (ok: bool, sp': nat)
    requires stack.Length == STACK_SIZE && sp <= STACK_SIZE
    modifies stack
    ensures ok == (sp < STACK_SIZE)
    ensures ok ==> sp' == sp + 1 && stack[..sp'] == old(stack[..sp]) + [v]
    ensures !ok ==> sp' == sp && stack[..sp] == old(stack[..sp])
  {
    if sp >= STACK_SIZE {
      return false, sp;
    }
    stack[sp] := v;
    return true, sp + 1;
  }

  method Pop(stack: array<Byte>, sp: nat) returns (v: Option<Byte>, sp': nat)
    requires stack.Length == STACK_SIZE && sp <= STACK_SIZE
    ensures v.None? <==> sp == 0
    ensures v.None? ==> sp' == sp
    ensures v.Some? ==> sp' == sp - 1 && v.value == Top(stack[..sp]) && stack[..sp'] == Drop(stack[..sp])
  {
    if sp == 0 {
      return None, sp;
    }
    return Some(stack[sp - 1]), sp - 1;
  }

  /** A machine state: the array prefix below the stack pointer is the abstract stack. */
  datatype Status = Going(pc: nat, sp: nat, rng: SeededRng) | Done(result: Option<Move>, rng: SeededRng)

  /** The array machine agrees with the step semantics. */
  ghost predicate Agrees(status: Status, stack: array<Byte>, r: StepResult)
    reads stack
    requires stack.Length == STACK_SIZE
  {
    match status
    case Going(pc, sp, rng) => sp <= STACK_SIZE && r == Continue(State(pc, stack[..sp], rng))
    case Done(result, rng) => r.Halt? && r.outcome.Move() == result && r.outcome.rng == rng
  }

  /** Pushes v and moves on, or stops on overflow. */
  method PushNext(stack: array<Byte>, sp: nat, v: Byte, pc: nat, rng: SeededRng) returns (status: Status)
    requires stack.Length == STACK_SIZE && sp <= STACK_SIZE
    modifies stack
    ensures Agrees(status, stack, PushAnd(old(stack[..sp]), v, pc, rng))
  {
    var ok, sp' := Push(stack, sp, v);
    status := if ok then Going(pc, sp', rng) else Done(None, rng);
  }

  /** Executes the instruction at pc. */
  method Dispatch(env: Env, stack: array<Byte>, pc: nat, sp: nat, rng: SeededRng) returns (status: Status)
    requires stack.Length == STACK_SIZE && sp <= STACK_SIZE && pc < |env.code|
    modifies stack
    ensures Agrees(status, stack, Step(env, State(pc, old(stack[..sp]), rng)))
  {
    hide SourceValue, UnaryValue, BinaryValue, PushAnd;
    var op := env.code[pc];
    if op == COOP {
      return Done(Some(Cooperate), rng);
    } else if op == DEFECT {
      return Done(Some(Defect), rng);
    } else if op == PUSH {
      if pc + 1 >= |env.code| { return Done(None, rng); }
      status := PushNext(stack, sp, env.code[pc + 1], pc + 2, rng);
      return;
    } else if IsSource(op) {
      var (rng', v) := SourceValue(env, op, rng);
      status := PushNext(stack, sp, v, pc + 1, rng');
      return;
    } else if op == JMP_FWD {
      if pc + 1 >= |env.code| { return Done(None, rng); }
      return Going(pc + 2 + env.code[pc + 1], sp, rng);
    }
    status := DispatchPopping(env, stack, pc, sp, rng);
  }

  /** The instructions that begin by popping. */
  method DispatchPopping(env: Env, stack: array<Byte>, pc: nat, sp: nat, rng: SeededRng) returns (status: Status)
    requires stack.Length == STACK_SIZE && sp <= STACK_SIZE && pc < |env.code|
    requires var op := env.code[pc]; op !in {COOP, DEFECT, PUSH, JMP_FWD} && !IsSource(op)
    modifies stack
    ensures Agrees(status, stack, Step(env, State(pc, old(stack[..sp]), rng)))
  {
    hide UnaryValue, BinaryValue, PushAnd;
    var op := env.code[pc];
    var popping := op == RETURN || IsUnary(op) || IsBinary(op) || op == DUP || op == JMP_FWD_IF;
    if !popping {
      return Done(None, rng);
    }
    var top, sp1 := Pop(stack, sp);
    if top.None? {
      return Done(None, rng);
    }
    if op == RETURN {
      status := Done(Some(if top.value == 0 then Cooperate else Defect), rng);
    } else if IsUnary(op) {
      status := PushNext(stack, sp1, UnaryValue(env, op, top.value), pc + 1, rng);
    } else if op == DUP {
      var ok, sp2 := Push(stack, sp1, top.value);
      assert stack[..sp2] == old(stack[..sp]);
      status := PushNext(stack, sp2, top.value, pc + 1, rng);
    } else if op == JMP_FWD_IF {
      if pc + 1 >= |env.code| { return Done(None, rng); }
      status := if top.value != 0 then Going(pc + 2 + env.code[pc + 1], sp1, rng) else Going(pc + 2, sp1, rng);
    } else {
      var below, sp2 := Pop(stack, sp1);
      if below.None? { return Done(None, rng); }
      status := PushNext(stack, sp2, BinaryValue(op, below.value, top.value), pc + 1, rng);
    }
  }

  /** The fetch loop with its fuel counter. */
  method ExecuteInner(env: Env, rng0: SeededRng) returns (result: Option<Move>, rng: SeededRng)
    ensures var outcome := RunFueled(env, Start(rng0), MAX_FUEL);
            result == outcome.Move() && rng == outcome.rng
  {
    hide Step;
    var stack := new Byte[STACK_SIZE](_ => 0);
    var sp, pc, fuel := 0, 0, 0;
    rng := rng0;
    assert stack[..0] == [];
    while pc < |env.code|
      invariant sp <= STACK_SIZE && fuel <= MAX_FUEL
      invariant RunFueled(env, Start(rng0), MAX_FUEL) == RunFueled(env, State(pc, stack[..sp], rng), MAX_FUEL - fuel)
      decreases MAX_FUEL + 1 - fuel
    {
      fuel := fuel + 1;
      if fuel > MAX_FUEL {
        return None, rng;
      }
      var status := Dispatch(env, stack, pc, sp, rng);
      match status
      case Done(move, rng') => return move, rng';
      case Going(pc', sp', rng') => pc, sp, rng := pc', sp', rng';
    }
    result := None;
  }
}
