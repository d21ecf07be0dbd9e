/** Properties of the stack machine of VM/VirtualMachine.py: the operand order and
    stack effect of each instruction, the faults on an empty stack, the branch and
    call semantics, what a `step` slice and a `call_function` run leave behind, and
    which instructions may touch the globals or the host. */
module MachineProofs {
  import opened Common
  import opened Values
  import opened Opcodes
  import opened Machine

  // ---------------------------------------------------------------------------
  // Data instructions

  /** LOAD_CONST reads its operand and pushes the constant it indexes, with Python's
      negative indexing; a missing operand or constant is an IndexError. */
  lemma LoadConstPushes(env: Env, s: VMState)
    requires s.ip.Int?
    ensures var r := Exec(env, s, LOAD_CONST);
      match PyIndex(|env.code|, s.ip.i)
      case None => r == (s, Some(IndexOutOfRange))
      case Some(j) =>
        match PyIndex(|env.consts|, env.code[j])
        case None => r == (s.(ip := Int(s.ip.i + 1)), Some(IndexOutOfRange))
        case Some(k) => r == (s.(ip := Int(s.ip.i + 1), stack := s.stack + [env.consts[k]]), None)
  {
  }

  /** POP drops the top of the stack; on an empty stack it does nothing and raises nothing. */
  lemma PopEmptyDoesNothing(env: Env, s: VMState)
    requires s.ip.Int?
    ensures |s.stack| == 0 ==> Exec(env, s, POP) == (s, None)
    ensures |s.stack| > 0 ==> Exec(env, s, POP) == (s.(stack := s.stack[..|s.stack| - 1]), None)
  {
  }

  /** LOAD_VAR pushes the global named by the constant, or `0.0` when it is unset. */
  lemma LoadVarDefault(env: Env, s: VMState, idx: int, k: nat)
    requires s.ip.Int? && 0 <= s.ip.i < |env.code| && env.code[s.ip.i] == idx
    requires PyIndex(|env.consts|, idx) == Some(k)
    ensures var r := Exec(env, s, LOAD_VAR);
      var name := KeyOf(env.consts[k]);
      r.1.None? && r.0.ip == Int(s.ip.i + 1) &&
      r.0.stack == s.stack + [if name in s.globals then s.globals[name] else Float(0.0)] &&
      r.0.globals == s.globals
  {
  }

  /** STORE_VAR pops the top into the global named by the constant, and faults on an
      empty stack after the operand is consumed. */
  lemma StoreVarPops(env: Env, s: VMState, idx: int, k: nat)
    requires s.ip.Int? && 0 <= s.ip.i < |env.code| && env.code[s.ip.i] == idx
    requires PyIndex(|env.consts|, idx) == Some(k)
    ensures var r := Exec(env, s, STORE_VAR);
      (|s.stack| == 0 ==> r == (s.(ip := Int(s.ip.i + 1)), Some(PopFromEmpty))) &&
      (|s.stack| > 0 ==>
        r.1.None? && r.0.stack == s.stack[..|s.stack| - 1] &&
        r.0.globals == s.globals[KeyOf(env.consts[k]) := s.stack[|s.stack| - 1]])
  {
  }

  // ---------------------------------------------------------------------------
  // Binary operators

  /** A binary operator pops `b` then `a` and pushes `a op b`: the left operand is the
      one pushed first. */
  lemma {:induction false} BinaryOperandOrder(s: VMState, op: int, rest: seq<Value>, a: Value, b: Value)
    requires op in BinaryOps && s.stack == rest + [a, b]
    ensures var r := ExecBinary(s, op);
      (BinaryResult(op, a, b).Some? ==> r == (s.(stack := rest + [BinaryResult(op, a, b).value]), None)) &&
      (BinaryResult(op, a, b).None? ==> r == (s.(stack := rest), Some(TypeError)))
  {
    assert s.stack[..|s.stack| - 2] == rest;
  }

  /** With fewer than two values a binary operator raises IndexError. */
  lemma BinaryUnderflow(s: VMState, op: int)
    requires op in BinaryOps && |s.stack| < 2
    ensures ExecBinary(s, op).1 == Some(PopFromEmpty) && ExecBinary(s, op).0.stack == []
  {
  }

  /** DIV and MOD by a zero number push the int `0` whatever the dividend. */
  lemma DivModByZero(s: VMState, op: int, rest: seq<Value>, a: Value, b: Value)
    requires (op == DIV || op == MOD) && s.stack == rest + [a, b] && IsZero(b)
    ensures ExecBinary(s, op) == (s.(stack := rest + [Int(0)]), None)
  {
    BinaryOperandOrder(s, op, rest, a, b);
  }

  /** GT and GTE are LT and LTE with the operands swapped. */
  lemma GreaterIsSwappedLess(a: Value, b: Value)
    ensures BinaryResult(GT, a, b) == BinaryResult(LT, b, a)
    ensures BinaryResult(GTE, a, b) == BinaryResult(LTE, b, a)
  {
  }

  /** EQ and NEQ never raise and always disagree. */
  lemma EqualityTotal(a: Value, b: Value)
    ensures BinaryResult(EQ, a, b).Some? && BinaryResult(NEQ, a, b).Some?
    ensures BinaryResult(EQ, a, b).value.Bool? && BinaryResult(NEQ, a, b).value.Bool?
    ensures BinaryResult(EQ, a, b).value.b != BinaryResult(NEQ, a, b).value.b
  {
  }

  // ---------------------------------------------------------------------------
  // Stack effect

  /** The net stack effect of each instruction whose effect does not depend on its
      operands; CALL and SYS are treated separately. */
  function StackEffect(op: int): (d: Option<int>)
    ensures d.Some? <==> op in BinaryOps || op in {LOAD_CONST, LOAD_VAR, STORE_VAR, NEG, JMP, JMP_IF_FALSE, HALT, RET}
    ensures d.Some? ==> -1 <= d.value <= 1
  {
    if op in BinaryOps || op == STORE_VAR || op == JMP_IF_FALSE then Some(-1)
    else if op == LOAD_CONST || op == LOAD_VAR then Some(1)
    else if op == NEG || op == JMP || op == HALT || op == RET then Some(0)
    else None
  }

  /** Every instruction of fixed effect that completes changes the stack height by
      exactly its effect. */
  lemma StackEffectHolds(env: Env, s: VMState, op: int)
    requires s.ip.Int? && StackEffect(op).Some?
    requires Exec(env, s, op).1.None?
    ensures |Exec(env, s, op).0.stack| == |s.stack| + StackEffect(op).value
  {
  }

  // ---------------------------------------------------------------------------
  // Jumps

  /** JMP_IF_FALSE pops the condition and jumps exactly when it is falsy; otherwise
      execution goes on after the operand. */
  lemma JumpIfFalseBranches(env: Env, s: VMState, target: int)
    requires s.ip.Int? && 0 <= s.ip.i < |env.code| && env.code[s.ip.i] == target
    requires |s.stack| > 0
    ensures var r := Exec(env, s, JMP_IF_FALSE);
      r.1.None? && r.0.stack == s.stack[..|s.stack| - 1] &&
      (r.0.ip == Int(target) || r.0.ip == Int(s.ip.i + 1)) &&
      (!Truthy(s.stack[|s.stack| - 1]) ==> r.0.ip == Int(target)) &&
      (Truthy(s.stack[|s.stack| - 1]) ==> r.0.ip == Int(s.ip.i + 1))
  {
  }

  /** JMP goes to its operand and touches nothing else. */
  lemma JumpGoes(env: Env, s: VMState, target: int)
    requires s.ip.Int? && 0 <= s.ip.i < |env.code| && env.code[s.ip.i] == target
    ensures Exec(env, s, JMP) == (s.(ip := Int(target)), None)
  {
  }

  // ---------------------------------------------------------------------------
  // Calls

  /** CALL pops the callee; an int callee (or a string naming an int global) is
      entered with the return address pushed on the call stack, and any other callee
      drops up to `argc` values. */
  lemma CallSemantics(env: Env, s: VMState, argc: int)
    requires s.ip.Int? && 0 <= s.ip.i < |env.code| && env.code[s.ip.i] == argc
    requires |s.stack| > 0
    ensures var r := Exec(env, s, CALL);
      var callee := s.stack[|s.stack| - 1];
      var below := s.stack[..|s.stack| - 1];
      var t := CallTarget(callee, s.globals);
      r.1.None? &&
      (t.Some? && IsIntLike(t.value) ==>
        r.0.callStack == s.callStack + [s.ip.i + 1] && r.0.ip == t.value && r.0.stack == below) &&
      (!(t.Some? && IsIntLike(t.value)) ==>
        r.0.callStack == s.callStack && r.0.ip == Int(s.ip.i + 1) &&
        r.0.stack == below[..|below| - Dropped(argc, |below|)])
  {
  }

  /** An int callee is always entered, whatever the globals hold. */
  lemma IntCalleeEntered(callee: Value, globals: map<Key, Value>)
    requires callee.Int?
    ensures CallTarget(callee, globals) == Some(callee)
  {
  }

  /** RET returns to the innermost return address, or halts the machine at top level. */
  lemma RetSemantics(env: Env, s: VMState)
    requires s.ip.Int?
    ensures var r := Exec(env, s, RET);
      r.1.None? && r.0.stack == s.stack &&
      (|s.callStack| > 0 ==>
        r.0.ip == Int(s.callStack[|s.callStack| - 1]) && r.0.callStack == s.callStack[..|s.callStack| - 1] &&
        r.0.halted == s.halted)
    ensures |s.callStack| == 0 ==> Exec(env, s, RET) == (s.(halted := true), None)
  {
  }

  /** A CALL into a function followed by its RET comes back to the instruction after
      the CALL's operand with the call stack as it was. */
  lemma CallThenRet(env: Env, s: VMState, argc: int, entry: int)
    requires s.ip.Int? && 0 <= s.ip.i < |env.code| && env.code[s.ip.i] == argc
    requires |s.stack| > 0 && s.stack[|s.stack| - 1] == Int(entry)
    ensures var r1 := Exec(env, s, CALL);
      r1.0.ip == Int(entry) &&
      var r2 := Exec(env, r1.0, RET);
      r2.1.None? && r2.0.ip == Int(s.ip.i + 1) && r2.0.callStack == s.callStack
  {
    var r1 := Exec(env, s, CALL);
    assert r1.0.callStack == s.callStack + [s.ip.i + 1];
    assert r1.0.callStack[..|r1.0.callStack| - 1] == s.callStack;
  }

  // ---------------------------------------------------------------------------
  // SYS

  /** The host dispatch pushes exactly one value whenever it does not raise. */
  lemma SysCallPushesOne(hw: Option<Host>, s: VMState, sysId: int, args: seq<Value>)
    ensures var r := SysCall(hw, s, sysId, args);
      r.1.None? ==> |r.0.stack| == |s.stack| + 1 && r.0.stack[..|s.stack|] == s.stack
  {
  }

  /** SYS changes the stack height by `1 - argc` (a negative `argc` pops nothing). */
  lemma SysStackEffect(env: Env, s: VMState)
    requires s.ip.Int? && 0 <= s.ip.i && s.ip.i + 1 < |env.code|
    requires Exec(env, s, SYS).1.None?
    ensures var argc := env.code[s.ip.i + 1];
      |Exec(env, s, SYS).0.stack| == |s.stack| - (if argc < 0 then 0 else argc) + 1
  {
    var argc := env.code[s.ip.i + 1];
    var n := if argc < 0 then 0 else argc;
    var s2 := s.(ip := Int(s.ip.i + 2));
    SysCallPushesOne(env.hardware, s2.(stack := s.stack[..|s.stack| - n]), env.code[s.ip.i], s.stack[|s.stack| - n..]);
  }

  /** SYS reaches the host only through `pset`, `spr` and `clear_screen`, only when a
      host is attached, and then records one call at most. */
  lemma SysEffectsOnlyWithHost(hw: Option<Host>, s: VMState, sysId: int, args: seq<Value>)
    ensures var r := SysCall(hw, s, sysId, args);
      (r.0.effects == s.effects) ||
      (hw.Some? && sysId in {0, 2, 5} && |r.0.effects| == |s.effects| + 1 && r.0.effects[..|s.effects|] == s.effects)
  {
  }

  /** Without a host every SYS pushes `0`. */
  lemma SysWithoutHost(s: VMState, sysId: int, args: seq<Value>)
    ensures SysCall(None, s, sysId, args) == (s.(stack := s.stack + [Int(0)]), None)
  {
  }

  /** `btn` reads the host's buttons: `1` when the button is down, `0` when up. */
  lemma ButtonReadsHost(h: Host, s: VMState, args: seq<Value>, id: int)
    requires |args| >= 1 && IntOf(args[0]) == Ok(id)
    ensures SysCall(Some(h), s, 4, args) == (s.(stack := s.stack + [Int(if h.btn(id) then 1 else 0)]), None)
  {
  }

  /** `spr` with three arguments on a host without an `spr` method raises AttributeError
      with the arguments already popped and nothing pushed. */
  lemma SprWithoutMethod(h: Host, s: VMState, args: seq<Value>)
    requires |args| >= 3 && !h.hasSpr
    ensures SysCall(Some(h), s, 2, args) == (s, Some(AttributeError))
  {
  }

  // ---------------------------------------------------------------------------
  // The fetch loop

  /** A slice of `n` cycles executes at most `n` instructions: `cycle_count` grows by
      at most `max(n, 0)`; the code, the constant pool and the host never change. */
  lemma {:induction false} RunCycles(env: Env, s: VMState, n: int)
    ensures var r := Run(env, s, n);
      s.cycleCount <= r.0.cycleCount <= s.cycleCount + (if n < 0 then 0 else n)
    decreases n
  {
    if n <= 0 || s.halted {
    } else if IpBelow(s.ip, |env.code|).Ok? && IpBelow(s.ip, |env.code|).value && Fetch(env.code, s.ip).Ok? {
      var op := Fetch(env.code, s.ip).value;
      var (s1, f) := Exec(env, s.(ip := Int(AsInt(s.ip) + 1)), op);
      if f.None? {
        RunCycles(env, s1.(cycleCount := s1.cycleCount + 1), n - 1);
      }
    }
  }

  /** A slice that ends without an exception ends because the machine halted, `ip`
      left the code, or all `n` cycles were spent. */
  lemma {:induction false} RunStopsQuietly(env: Env, s: VMState, n: int)
    requires Run(env, s, n).1.None?
    ensures var r := Run(env, s, n).0;
      r.halted || IpBelow(r.ip, |env.code|) == Ok(false) ||
      r.cycleCount == s.cycleCount + (if n < 0 then 0 else n)
    decreases n
  {
    if n <= 0 || s.halted {
    } else if IpBelow(s.ip, |env.code|).value {
      var op := Fetch(env.code, s.ip).value;
      var (s1, f) := Exec(env, s.(ip := Int(AsInt(s.ip) + 1)), op);
      RunStopsQuietly(env, s1.(cycleCount := s1.cycleCount + 1), n - 1);
    }
  }

  /** A slice of one cycle is one instruction. */
  lemma RunOne(env: Env, s: VMState, op: int)
    requires !s.halted && s.ip.Int? && 0 <= s.ip.i < |env.code| && env.code[s.ip.i] == op
    requires Exec(env, s.(ip := Int(s.ip.i + 1)), op).1.None?
    ensures var e := Exec(env, s.(ip := Int(s.ip.i + 1)), op).0;
      Run(env, s, 1) == (e.(cycleCount := e.cycleCount + 1), None)
  {
    assert IpBelow(s.ip, |env.code|) == Ok(true);
    assert Fetch(env.code, s.ip) == Ok(op);
    var e := Exec(env, s.(ip := Int(AsInt(s.ip) + 1)), op).0;
    assert Run(env, e.(cycleCount := e.cycleCount + 1), 0) == (e.(cycleCount := e.cycleCount + 1), None);
  }

  /** A halted machine stays put. */
  lemma HaltedStays(env: Env, s: VMState, n: int)
    requires s.halted
    ensures Run(env, s, n) == (s, None)
  {
  }

  // ---------------------------------------------------------------------------
  // call_function

  /** The `call_function` loop stops without an exception only when control left the
      code, the call stack emptied, or the machine halted. */
  lemma {:induction false} CallLoopStops(env: Env, s: VMState, fuel: nat, cycles: int)
    requires CallLoop(env, s, fuel, cycles).1.None?
    ensures CallGoesOn(env, CallLoop(env, s, fuel, cycles).0) == Ok(false)
    decreases fuel
  {
    var g := CallGoesOn(env, s);
    if g.Ok? && g.value && fuel > 0 {
      var (s1, f) := Run(env, s, cycles);
      CallLoopStops(env, s1, fuel - 1, cycles);
    }
  }

  /** Calling a name that is not a global does nothing. */
  lemma MissingFunctionIgnored(env: Env, s: VMState, name: Value, fuel: nat, cycles: int)
    requires KeyOf(name) !in s.globals
    ensures FunctionCall(env, s, name, fuel, cycles) == (s, None)
  {
  }

  /** A `call_function` that returns normally leaves the stack no higher than the loop
      left it, and one lower if the loop left it above its height at the call. */
  lemma FunctionCallDropsResult(env: Env, s: VMState, name: Value, fuel: nat, cycles: int)
    requires KeyOf(name) in s.globals
    ensures var s1 := s.(callStack := s.callStack + [|env.code|], ip := s.globals[KeyOf(name)]);
      var (l, lf) := CallLoop(env, s1, fuel, cycles);
      var (r, rf) := FunctionCall(env, s, name, fuel, cycles);
      rf == lf &&
      (lf.None? && |l.stack| > |s.stack| ==> r.stack == l.stack[..|l.stack| - 1]) &&
      (lf.None? && |l.stack| <= |s.stack| ==> r == l) &&
      (lf.Some? ==> r == l)
  {
  }

  /** A function entered by `call_function` that runs its RET pops the sentinel
      `len(code)` into `ip`, which ends the loop. */
  lemma SentinelEndsLoop(env: Env, s: VMState, fuel: nat, cycles: int)
    requires s.ip == Int(|env.code|)
    ensures CallLoop(env, s, fuel, cycles) == (s, None)
  {
  }

  /** `_exec_opcode` raises "Unknown Opcode" exactly for the numbers that are not in
      the opcode table, and then leaves the state as it found it. */
  lemma UnknownOpcodeFaults(env: Env, s: VMState, op: int)
    requires s.ip.Int?
    ensures Exec(env, s, op).1 == Some(UnknownOpcode(op, s.ip.i - 1)) <==> !IsOpcode(op)
    ensures !IsOpcode(op) ==> Exec(env, s, op).0 == s
  {
  }
}
