/** The stack machine of VM/VirtualMachine.py. `Exec` and `Run` give the meaning of
    one instruction and of a `step` slice on an explicit machine state; the class
    `SparkVM` at the end is the machine object, whose methods update its fields in
    place and are proved to reach exactly those states. */
module Machine {
  import opened Common
  import opened Values
  import opened Opcodes

  /** What the machine can do to the host console: the `hardware` object's drawing
      calls, recorded in order. */
  datatype Effect = Pset(x: Value, y: Value, color: Value) | Spr(id: Value, x: Value, y: Value) | ClearScreen

  /** The `hardware` object: `btn` is an oracle for the keyboard; `hasSpr` says whether
      the object has an `spr` method (the console's own SparkHardware has none). */
  datatype Host = Host(btn: int -> bool, hasSpr: bool)

  /** The exceptions that escape `step`: IndexError from popping an empty list or
      indexing out of range, TypeError, ValueError, AttributeError for a host without
      `spr`, the RuntimeError of an unknown opcode (with its address), and `OutOfFuel`
      when `call_function` runs longer than the bound the model allows. */
  datatype Fault =
    | PopFromEmpty | IndexOutOfRange | TypeError | ValueError | AttributeError
    | UnknownOpcode(op: int, addr: int) | OutOfFuel

  /** The fields fixed at construction: `code`, `consts`, `hardware`. */
  datatype Env = Env(code: seq<int>, consts: seq<Value>, hardware: Option<Host>)

  /** The processor state. `ip` is a Value because `call_function` may load any
      global into it; `globals` is keyed as a Python dict keys its entries. */
  datatype VMState = VMState(
    ip: Value, stack: seq<Value>, globals: map<Key, Value>, callStack: seq<int>,
    halted: bool, cycleCount: int, effects: seq<Effect>)

  /** A state after an instruction, and the exception if one escaped; when one did,
      the state is the one the object holds at the raise. */
  type Out = (VMState, Option<Fault>)

  /** Python list indexing: negative indices count from the end. */
  function PyIndex(n: nat, i: int): (r: Option<nat>)
    ensures r.Some? <==> -(n as int) <= i < n
    ensures r.Some? ==> r.value < n && (i >= 0 ==> r.value == i) && (i < 0 ==> r.value == n + i)
  {
    if 0 <= i < n then Some(i) else if -(n as int) <= i < 0 then Some(n + i) else None
  }

  /** `self.code[self.ip]` for an operand word. */
  function Operand(env: Env, s: VMState): (r: Result<int, Fault>)
    requires s.ip.Int?
  {
    match PyIndex(|env.code|, s.ip.i)
    case Some(k) => Ok(env.code[k])
    case None => Err(IndexOutOfRange)
  }

  function Advance(s: VMState): VMState
    requires s.ip.Int?
  {
    s.(ip := Int(s.ip.i + 1))
  }

  function Push(s: VMState, v: Value): VMState
  {
    s.(stack := s.stack + [v])
  }

  // ---------------------------------------------------------------------------
  // One instruction; `s.ip` already points past the opcode.

  /** `_exec_opcode(op)`. */
  function Exec(env: Env, s: VMState, op: int): (r: Out)
    requires s.ip.Int?
    ensures r.0.cycleCount == s.cycleCount
    ensures op != STORE_VAR ==> r.0.globals == s.globals
  {
    if op == LOAD_CONST || op == LOAD_VAR || op == STORE_VAR || op == POP then ExecData(env, s, op)
    else if op in BinaryOps then ExecBinary(s, op)
    else if op == NEG then ExecNeg(s)
    else if op == JMP || op == JMP_IF_FALSE then ExecJump(env, s, op)
    else if op == HALT then (s.(halted := true), None)
    else if op == CALL then ExecCall(env, s)
    else if op == SYS then ExecSys(env, s)
    else if op == RET then ExecRet(s)
    else (s, Some(UnknownOpcode(op, s.ip.i - 1)))
  }

  function ExecData(env: Env, s: VMState, op: int): (r: Out)
    requires s.ip.Int?
    requires op == LOAD_CONST || op == LOAD_VAR || op == STORE_VAR || op == POP
    ensures r.0.cycleCount == s.cycleCount
    ensures op != STORE_VAR ==> r.0.globals == s.globals
  {
    if op == POP then
      (if |s.stack| > 0 then s.(stack := s.stack[..|s.stack| - 1]) else s, None)
    else
      match Operand(env, s)
      case Err(e) => (s, Some(e))
      case Ok(idx) =>
        var s1 := Advance(s);
        match PyIndex(|env.consts|, idx)
        case None => (s1, Some(IndexOutOfRange))
        case Some(k) =>
          var c := env.consts[k];
          if op == LOAD_CONST then (Push(s1, c), None)
          else if op == LOAD_VAR then
            (Push(s1, if KeyOf(c) in s1.globals then s1.globals[KeyOf(c)] else Float(0.0)), None)
          else if |s1.stack| == 0 then (s1, Some(PopFromEmpty))
          else
            var v := s1.stack[|s1.stack| - 1];
            (s1.(stack := s1.stack[..|s1.stack| - 1], globals := s1.globals[KeyOf(c) := v]), None)
  }

  /** The opcodes that pop `b`, then `a`, and push `a op b`. */
  const BinaryOps: set<int> := {ADD, SUB, MUL, DIV, MOD, EQ, NEQ, LT, LTE, GT, GTE}

  function BoolResult(r: Option<bool>): Option<Value>
  {
    if r.Some? then Some(Bool(r.value)) else None
  }

  /** `a op b`; `None` is the TypeError. `a > b` is `b < a` for numbers and strings. */
  function BinaryResult(op: int, a: Value, b: Value): Option<Value>
    requires op in BinaryOps
  {
    if op == ADD then Add(a, b)
    else if op == SUB then Sub(a, b)
    else if op == MUL then Mul(a, b)
    else if op == DIV then Div(a, b)
    else if op == MOD then Mod(a, b)
    else if op == EQ then Some(Bool(Equal(a, b)))
    else if op == NEQ then Some(Bool(!Equal(a, b)))
    else if op == LT then BoolResult(Less(a, b))
    else if op == LTE then BoolResult(LessEq(a, b))
    else if op == GT then BoolResult(Less(b, a))
    else BoolResult(LessEq(b, a))
  }

  function ExecBinary(s: VMState, op: int): (r: Out)
    requires op in BinaryOps
    ensures r.0.cycleCount == s.cycleCount
    ensures r.0.globals == s.globals
  {
    var n := |s.stack|;
    if n == 0 then (s, Some(PopFromEmpty))
    else if n == 1 then (s.(stack := []), Some(PopFromEmpty))
    else
      var rest := s.stack[..n - 2];
      match BinaryResult(op, s.stack[n - 2], s.stack[n - 1])
      case None => (s.(stack := rest), Some(TypeError))
      case Some(v) => (s.(stack := rest + [v]), None)
  }

  function ExecNeg(s: VMState): (r: Out)
    ensures r.0.cycleCount == s.cycleCount
    ensures r.0.globals == s.globals
  {
    var n := |s.stack|;
    if n == 0 then (s, Some(PopFromEmpty))
    else
      var rest := s.stack[..n - 1];
      match Neg(s.stack[n - 1])
      case None => (s.(stack := rest), Some(TypeError))
      case Some(v) => (s.(stack := rest + [v]), None)
  }

  function ExecJump(env: Env, s: VMState, op: int): (r: Out)
    requires s.ip.Int? && (op == JMP || op == JMP_IF_FALSE)
    ensures r.0.cycleCount == s.cycleCount
    ensures r.0.globals == s.globals
  {
    match Operand(env, s)
    case Err(e) => (s, Some(e))
    case Ok(target) =>
      var s1 := Advance(s);
      if op == JMP then (s1.(ip := Int(target)), None)
      else if |s1.stack| == 0 then (s1, Some(PopFromEmpty))
      else
        var v := s1.stack[|s1.stack| - 1];
        var s2 := s1.(stack := s1.stack[..|s1.stack| - 1]);
        (if Truthy(v) then s2 else s2.(ip := Int(target)), None)
  }

  /** Where CALL goes: an int (or bool) callee is an address; a string callee is looked
      up in the globals; anything else goes nowhere. */
  function CallTarget(callee: Value, globals: map<Key, Value>): Option<Value>
  {
    if IsIntLike(callee) then Some(callee)
    else if callee.Str? && KeyOf(callee) in globals then Some(globals[KeyOf(callee)])
    else None
  }

  /** `for _ in range(argc): if self.stack: self.stack.pop()` removes this many values. */
  function Dropped(argc: int, n: nat): (k: nat)
    ensures k <= n
  {
    if argc <= 0 then 0 else if argc < n then argc else n
  }

  function ExecCall(env: Env, s: VMState): (r: Out)
    requires s.ip.Int?
    ensures r.0.cycleCount == s.cycleCount
    ensures r.0.globals == s.globals
  {
    match Operand(env, s)
    case Err(e) => (s, Some(e))
    case Ok(argc) =>
      var s1 := Advance(s);
      if |s1.stack| == 0 then (s1, Some(PopFromEmpty))
      else
        var callee := s1.stack[|s1.stack| - 1];
        var s2 := s1.(stack := s1.stack[..|s1.stack| - 1]);
        var target := CallTarget(callee, s2.globals);
        if target.Some? && IsIntLike(target.value) then
          (s2.(callStack := s2.callStack + [s2.ip.i], ip := target.value), None)
        else
          (s2.(stack := s2.stack[..|s2.stack| - Dropped(argc, |s2.stack|)]), None)
  }

  function ExecSys(env: Env, s: VMState): (r: Out)
    requires s.ip.Int?
    ensures r.0.cycleCount == s.cycleCount
    ensures r.0.globals == s.globals
  {
    match Operand(env, s)
    case Err(e) => (s, Some(e))
    case Ok(sysId) =>
      var s1 := Advance(s);
      match Operand(env, s1)
      case Err(e) => (s1, Some(e))
      case Ok(argc) =>
        var s2 := Advance(s1);
        var n := if argc < 0 then 0 else argc;
        if n > |s2.stack| then (s2.(stack := []), Some(PopFromEmpty))
        else
          var args := s2.stack[|s2.stack| - n..];
          SysCall(env.hardware, s2.(stack := s2.stack[..|s2.stack| - n]), sysId, args)
  }

  /** The host dispatch of SYS, after the arguments are popped (in push order). Every
      path that returns pushes exactly one value. */
  function SysCall(hw: Option<Host>, s: VMState, sysId: int, args: seq<Value>): (r: Out)
    ensures r.0.cycleCount == s.cycleCount
  {
    if hw.None? then (Push(s, Int(0)), None)
    else if sysId == 0 then
      (Push(if |args| >= 3 then s.(effects := s.effects + [Pset(args[0], args[1], args[2])]) else s, Int(0)), None)
    else if sysId == 2 then
      if |args| < 3 then (Push(s, Int(0)), None)
      else if !hw.value.hasSpr then (s, Some(AttributeError))
      else (Push(s.(effects := s.effects + [Spr(args[0], args[1], args[2])]), Int(0)), None)
    else if sysId == 4 then
      if |args| < 1 then (Push(s, Int(0)), None)
      else
        match IntOf(args[0])
        case Err(kind) => (s, Some(if kind == "TypeError" then TypeError else ValueError))
        case Ok(id) => (Push(s, Int(if hw.value.btn(id) then 1 else 0)), None)
    else if sysId == 5 then (Push(s.(effects := s.effects + [ClearScreen]), Int(0)), None)
    else (Push(s, Int(0)), None)
  }

  function ExecRet(s: VMState): (r: Out)
    ensures r.0.cycleCount == s.cycleCount
    ensures r.0.globals == s.globals
  {
    if |s.callStack| > 0 then
      (s.(ip := Int(s.callStack[|s.callStack| - 1]), callStack := s.callStack[..|s.callStack| - 1]), None)
    else (s.(halted := true), None)
  }

  // ---------------------------------------------------------------------------
  // The fetch loop

  /** `self.ip < len(self.code)`: a TypeError for a string or None `ip`. */
  function IpBelow(ip: Value, n: int): Result<bool, Fault>
  {
    if IsIntLike(ip) then Ok(AsInt(ip) < n)
    else if ip.Float? then Ok(ip.r < n as real)
    else Err(TypeError)
  }

  /** `self.code[self.ip]`: an int (or bool) index, else a TypeError. */
  function Fetch(code: seq<int>, ip: Value): Result<int, Fault>
  {
    if !IsIntLike(ip) then Err(TypeError)
    else match PyIndex(|code|, AsInt(ip))
      case Some(k) => Ok(code[k])
      case None => Err(IndexOutOfRange)
  }

  /** `step(max_cycles)` from state `s` with `cyclesLeft` cycles still to spend. */
  function Run(env: Env, s: VMState, cyclesLeft: int): Out
    decreases cyclesLeft
  {
    if cyclesLeft <= 0 || s.halted then (s, None)
    else
      match IpBelow(s.ip, |env.code|)
      case Err(e) => (s, Some(e))
      case Ok(below) =>
        if !below then (s, None)
        else
          match Fetch(env.code, s.ip)
          case Err(e) => (s, Some(e))
          case Ok(op) =>
            var (s1, f) := Exec(env, s.(ip := Int(AsInt(s.ip) + 1)), op);
            if f.Some? then (s1, f)
            else Run(env, s1.(cycleCount := s1.cycleCount + 1), cyclesLeft - 1)
  }

  /** One cycle of `Run`: the instruction at `ip` runs with `ip` already advanced,
      and unless it raised, the rest of the slice follows with one more cycle counted. */
  lemma RunStep(env: Env, s: VMState, cyclesLeft: int)
    requires cyclesLeft > 0 && !s.halted && IpBelow(s.ip, |env.code|) == Ok(true) && Fetch(env.code, s.ip).Ok?
    ensures var out := Exec(env, s.(ip := Int(AsInt(s.ip) + 1)), Fetch(env.code, s.ip).value);
      Run(env, s, cyclesLeft) ==
        if out.1.Some? then out else Run(env, out.0.(cycleCount := out.0.cycleCount + 1), cyclesLeft - 1)
  {
  }

  /** Whether the `call_function` loop goes on: `ip < len(code)`, a non-empty call
      stack, and not halted. */
  function CallGoesOn(env: Env, s: VMState): Result<bool, Fault>
  {
    match IpBelow(s.ip, |env.code|)
    case Err(e) => Err(e)
    case Ok(below) => Ok(below && |s.callStack| > 0 && !s.halted)
  }

  /** The `while ...: self.step()` loop of `call_function`, for at most `fuel` slices
      of `cycles` cycles each. */
  function CallLoop(env: Env, s: VMState, fuel: nat, cycles: int): Out
    decreases fuel
  {
    match CallGoesOn(env, s)
    case Err(e) => (s, Some(e))
    case Ok(goesOn) =>
      if !goesOn then (s, None)
      else if fuel == 0 then (s, Some(OutOfFuel))
      else
        var (s1, f) := Run(env, s, cycles);
        if f.Some? then (s1, f) else CallLoop(env, s1, fuel - 1, cycles)
  }

  /** `call_function(name)`: push the sentinel return address `len(code)`, jump to the
      global's value, run until control leaves the code, and drop one value if the
      stack grew. */
  function FunctionCall(env: Env, s: VMState, name: Value, fuel: nat, cycles: int): Out
  {
    if KeyOf(name) !in s.globals then (s, None)
    else
      var s1 := s.(callStack := s.callStack + [|env.code|], ip := s.globals[KeyOf(name)]);
      DropIfGrown(CallLoop(env, s1, fuel, cycles), |s.stack|)
  }

  /** `if len(self.stack) > initial_stack_size: self.stack.pop()`, unless the loop raised. */
  function DropIfGrown(out: Out, initial: nat): Out
  {
    var (s, f) := out;
    if f.Some? then out
    else if |s.stack| > initial then (s.(stack := s.stack[..|s.stack| - 1]), None)
    else (s, None)
  }

  /** The SparkVM object. Each method is proved to leave the object in the state the
      functions above compute, and to raise (return `Some`) exactly when they do. */
  class SparkVM {
    const code: seq<int>
    const consts: seq<Value>
    const hardware: Option<Host>
    /** The default `max_cycles` of `step`, the slice `call_function` runs with. */
    const defaultMaxCycles: int
    var ip: Value
    var sp: int
    var stack: seq<Value>
    var globals: map<Key, Value>
    var callStack: seq<int>
    var halted: bool
    var cycleCount: int
    /** The calls made on `hardware` so far. */
    var effects: seq<Effect>

    function Setup(): Env
    {
      Env(code, consts, hardware)
    }

    function State(): VMState
      reads this
    {
      VMState(ip, stack, globals, callStack, halted, cycleCount, effects)
    }

    constructor(bytecode: seq<int>, constants: seq<Value>, hw: Option<Host>)
      ensures Setup() == Env(bytecode, constants, hw)
      ensures State() == VMState(Int(0), [], map[], [], false, 0, []) && sp == 0
      ensures defaultMaxCycles == 60
    {
      code := bytecode;
      consts := constants;
      hardware := hw;
      defaultMaxCycles := 60;
      ip := Int(0);
      sp := 0;
      stack := [];
      globals := map[];
      callStack := [];
      halted := false;
      cycleCount := 0;
      effects := [];
    }

    /** `reset`: back to address 0 with an empty stack; the globals and the call stack
        survive. */
    method Reset()
      modifies this
      ensures State() == old(State()).(ip := Int(0), stack := [], halted := false, cycleCount := 0)
      ensures globals == old(globals) && callStack == old(callStack) && sp == old(sp)
    {
      ip := Int(0);
      stack := [];
      halted := false;
      cycleCount := 0;
    }

    /** `self.stack.pop()`. */
    method Pop() returns (v: Value, fault: Option<Fault>)
      modifies this
      ensures old(|stack|) == 0 ==> fault == Some(PopFromEmpty) && State() == old(State())
      ensures old(|stack|) > 0 ==>
        fault.None? && v == old(stack[|stack| - 1]) &&
        State() == old(State()).(stack := old(stack[..|stack| - 1]))
    {
      if |stack| == 0 {
        return NoneV, Some(PopFromEmpty);
      }
      v := stack[|stack| - 1];
      stack := stack[..|stack| - 1];
      fault := None;
    }

    /** `x = self.code[self.ip]; self.ip += 1`. */
    method ReadOperand() returns (x: int, fault: Option<Fault>)
      requires ip.Int?
      modifies this
      ensures Operand(Setup(), old(State())).Err? ==>
        fault == Some(Operand(Setup(), old(State())).error) && State() == old(State())
      ensures Operand(Setup(), old(State())).Ok? ==>
        fault.None? && x == Operand(Setup(), old(State())).value && State() == Advance(old(State()))
    {
      var k := PyIndex(|code|, ip.i);
      if k.None? {
        return 0, Some(IndexOutOfRange);
      }
      x := code[k.value];
      ip := Int(ip.i + 1);
      fault := None;
    }

    /** `_exec_opcode(op)`, one opcode family per helper. */
    method ExecOpcode(op: int) returns (fault: Option<Fault>)
      requires ip.Int?
      modifies this
      ensures (State(), fault) == Exec(Setup(), old(State()), op)
    {
      if op == LOAD_CONST || op == LOAD_VAR || op == STORE_VAR || op == POP {
        fault := ExecDataOp(op);
      } else if op in BinaryOps {
        fault := ExecBinaryOp(op);
      } else if op == NEG {
        fault := ExecNegOp();
      } else if op == JMP || op == JMP_IF_FALSE {
        fault := ExecJumpOp(op);
      } else if op == HALT {
        halted := true;
        fault := None;
      } else if op == CALL {
        fault := ExecCallOp();
      } else if op == SYS {
        fault := ExecSysOp();
      } else if op == RET {
        if |callStack| > 0 {
          ip := Int(callStack[|callStack| - 1]);
          callStack := callStack[..|callStack| - 1];
        } else {
          halted := true;
        }
        fault := None;
      } else {
        fault := Some(UnknownOpcode(op, ip.i - 1));
      }
    }

    method ExecDataOp(op: int) returns (fault: Option<Fault>)
      requires ip.Int?
      requires op == LOAD_CONST || op == LOAD_VAR || op == STORE_VAR || op == POP
      modifies this
      ensures (State(), fault) == ExecData(Setup(), old(State()), op)
    {
      if op == POP {
        if |stack| > 0 {
          var _, _ := Pop();
        }
        return None;
      }
      var idx;
      idx, fault := ReadOperand();
      if fault.Some? {
        return;
      }
      var k := PyIndex(|consts|, idx);
      if k.None? {
        return Some(IndexOutOfRange);
      }
      var c := consts[k.value];
      if op == LOAD_CONST {
        stack := stack + [c];
      } else if op == LOAD_VAR {
        var v := if KeyOf(c) in globals then globals[KeyOf(c)] else Float(0.0);
        stack := stack + [v];
      } else {
        var v;
        v, fault := Pop();
        if fault.Some? {
          return;
        }
        globals := globals[KeyOf(c) := v];
      }
    }

    method ExecBinaryOp(op: int) returns (fault: Option<Fault>)
      requires op in BinaryOps
      modifies this
      ensures (State(), fault) == ExecBinary(old(State()), op)
    {
      ghost var before := stack;
      var a, b;
      b, fault := Pop();
      if fault.Some? {
        return;
      }
      a, fault := Pop();
      if fault.Some? {
        return;
      }
      assert stack == before[..|before| - 2];
      var v := BinaryResult(op, a, b);
      if v.None? {
        return Some(TypeError);
      }
      stack := stack + [v.value];
    }

    method ExecNegOp() returns (fault: Option<Fault>)
      modifies this
      ensures (State(), fault) == ExecNeg(old(State()))
    {
      var a;
      a, fault := Pop();
      if fault.Some? {
        return;
      }
      var v := Neg(a);
      if v.None? {
        return Some(TypeError);
      }
      stack := stack + [v.value];
    }

    method ExecJumpOp(op: int) returns (fault: Option<Fault>)
      requires ip.Int? && (op == JMP || op == JMP_IF_FALSE)
      modifies this
      ensures (State(), fault) == ExecJump(Setup(), old(State()), op)
    {
      var target;
      target, fault := ReadOperand();
      if fault.Some? {
        return;
      }
      if op == JMP {
        ip := Int(target);
      } else {
        var v;
        v, fault := Pop();
        if fault.Some? {
          return;
        }
        if !Truthy(v) {
          ip := Int(target);
        }
      }
    }

    method ExecCallOp() returns (fault: Option<Fault>)
      requires ip.Int?
      modifies this
      ensures (State(), fault) == ExecCall(Setup(), old(State()))
    {
      var argc;
      argc, fault := ReadOperand();
      if fault.Some? {
        return;
      }
      var callee;
      callee, fault := Pop();
      if fault.Some? {
        return;
      }
      var target := CallTarget(callee, globals);
      if target.Some? && IsIntLike(target.value) {
        callStack := callStack + [ip.i];
        ip := target.value;
      } else {
        ghost var before, s2 := stack, State();
        var j := 0;
        while j < argc
          invariant 0 <= j <= (if argc < 0 then 0 else argc)
          invariant stack == before[..|before| - Dropped(j, |before|)]
          invariant State() == s2.(stack := stack)
          decreases argc - j
        {
          if |stack| > 0 {
            assert before[..|before| - Dropped(j, |before|)][..|stack| - 1] == before[..|before| - Dropped(j + 1, |before|)];
            stack := stack[..|stack| - 1];
          }
          j := j + 1;
        }
        assert Dropped(j, |before|) == Dropped(argc, |before|);
      }
    }

    method ExecSysOp() returns (fault: Option<Fault>)
      requires ip.Int?
      modifies this
      ensures (State(), fault) == ExecSys(Setup(), old(State()))
    {
      var sysId, argc;
      sysId, fault := ReadOperand();
      if fault.Some? {
        return;
      }
      argc, fault := ReadOperand();
      if fault.Some? {
        return;
      }
      ghost var before, s2 := stack, State();
      var args: seq<Value> := [];
      var j := 0;
      while j < argc
        invariant 0 <= j <= |before| && j <= (if argc < 0 then 0 else argc)
        invariant stack == before[..|before| - j] && args == before[|before| - j..]
        invariant State() == s2.(stack := stack)
        decreases argc - j
      {
        var v;
        v, fault := Pop();
        if fault.Some? {
          assert j == |before| && stack == [];
          return;
        }
        assert before[..|before| - j][..|before| - j - 1] == before[..|before| - (j + 1)];
        assert [v] + before[|before| - j..] == before[|before| - (j + 1)..];
        args := [v] + args;
        j := j + 1;
      }
      fault := HostCall(sysId, args);
    }

    /** The `if self.hardware:` dispatch of SYS. */
    method HostCall(sysId: int, args: seq<Value>) returns (fault: Option<Fault>)
      modifies this
      ensures (State(), fault) == SysCall(hardware, old(State()), sysId, args)
    {
      fault := None;
      if hardware.None? {
        stack := stack + [Int(0)];
      } else if sysId == 0 {
        if |args| >= 3 {
          effects := effects + [Pset(args[0], args[1], args[2])];
        }
        stack := stack + [Int(0)];
      } else if sysId == 2 {
        if |args| >= 3 {
          if !hardware.value.hasSpr {
            return Some(AttributeError);
          }
          effects := effects + [Spr(args[0], args[1], args[2])];
        }
        stack := stack + [Int(0)];
      } else if sysId == 4 {
        if |args| >= 1 {
          var id := IntOf(args[0]);
          if id.Err? {
            return Some(if id.error == "TypeError" then TypeError else ValueError);
          }
          var pressed := hardware.value.btn(id.value);
          stack := stack + [Int(if pressed then 1 else 0)];
        } else {
          stack := stack + [Int(0)];
        }
      } else if sysId == 5 {
        effects := effects + [ClearScreen];
        stack := stack + [Int(0)];
      } else {
        stack := stack + [Int(0)];
      }
    }

    /** One cycle of `step`: check `ip`, fetch the opcode, advance `ip` and execute.
        `stop` says the slice ends here, with the outcome `Run` gives it. */
    method Cycle(ghost cyclesLeft: int) returns (fault: Option<Fault>, stop: bool)
      requires cyclesLeft > 0 && !halted
      modifies this
      ensures stop ==> (State(), fault) == Run(Setup(), old(State()), cyclesLeft)
      ensures !stop ==> fault.None? && Run(Setup(), old(State()), cyclesLeft) == Run(Setup(), State(), cyclesLeft - 1)
    {
      var below := IpBelow(ip, |code|);
      if below.Err? {
        return Some(below.error), true;
      }
      if !below.value {
        return None, true;
      }
      var op := Fetch(code, ip);
      if op.Err? {
        return Some(op.error), true;
      }
      ghost var pre := State();
      RunStep(Setup(), pre, cyclesLeft);
      ip := Int(AsInt(ip) + 1);
      assert State() == pre.(ip := Int(AsInt(pre.ip) + 1));
      fault := ExecOpcode(op.value);
      ghost var out := Exec(Setup(), pre.(ip := Int(AsInt(pre.ip) + 1)), op.value);
      assert State() == out.0 && fault == out.1;
      if fault.Some? {
        return fault, true;
      }
      cycleCount := cycleCount + 1;
      assert State() == out.0.(cycleCount := out.0.cycleCount + 1);
      stop := false;
    }

    /** `step(max_cycles)`: fetch and execute until the cycles run out, the machine
        halts, or `ip` leaves the code. */
    method Step(maxCycles: int) returns (fault: Option<Fault>)
      modifies this
      ensures (State(), fault) == Run(Setup(), old(State()), maxCycles)
    {
      var cyclesLeft := maxCycles;
      while cyclesLeft > 0 && !halted
        invariant Run(Setup(), old(State()), maxCycles) == Run(Setup(), State(), cyclesLeft)
        decreases cyclesLeft
      {
        var stop;
        fault, stop := Cycle(cyclesLeft);
        if stop {
          return;
        }
        cyclesLeft := cyclesLeft - 1;
      }
      fault := None;
    }

    /** `call_function(name)`, running at most `fuel` slices of `step`. */
    method CallFunction(name: Value, fuel: nat) returns (fault: Option<Fault>)
      modifies this
      ensures (State(), fault) == FunctionCall(Setup(), old(State()), name, fuel, defaultMaxCycles)
    {
      if KeyOf(name) !in globals {
        return None;
      }
      var initial := |stack|;
      ghost var s0 := State();
      callStack := callStack + [|code|];
      ip := globals[KeyOf(name)];
      ghost var s1 := State();
      assert s1 == s0.(callStack := s0.callStack + [|code|], ip := s0.globals[KeyOf(name)]);
      fault := StepUntilReturn(fuel, defaultMaxCycles);
      ghost var loop := CallLoop(Setup(), s1, fuel, defaultMaxCycles);
      assert State() == loop.0 && fault == loop.1;
      if fault.None? && |stack| > initial {
        stack := stack[..|stack| - 1];
      }
    }

    /** The `while ...: self.step()` loop of `call_function`. */
    method StepUntilReturn(fuel: nat, cycles: int) returns (fault: Option<Fault>)
      modifies this
      ensures (State(), fault) == CallLoop(Setup(), old(State()), fuel, cycles)
    {
      var f := fuel;
      while true
        invariant CallLoop(Setup(), old(State()), fuel, cycles) == CallLoop(Setup(), State(), f, cycles)
        decreases f
      {
        var goesOn := CallGoesOn(Setup(), State());
        if goesOn.Err? {
          return Some(goesOn.error);
        }
        if !goesOn.value {
          return None;
        }
        if f == 0 {
          return Some(OutOfFuel);
        }
        fault := Step(cycles);
        if fault.Some? {
          return;
        }
        f := f - 1;
      }
    }
  }
}
