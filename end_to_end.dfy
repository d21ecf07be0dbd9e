/** The three stages together on one program, `x = 2 * 3`: the printed program parses
    back to its tree, the tree compiles to five instructions with a pool of three
    constants, and the machine built on that code runs them to HALT with `x` bound
    to 6.0. */
module EndToEnd {
  import opened Common
  import opened Data
  import opened Values
  import opened Opcodes
  import opened Parser
  import opened Unparser
  import opened Compiler
  import opened Machine
  import opened MachineProofs

  const Product: Node := Program([Assign("x", BinaryOp("*", Number(2.0), Number(3.0)))])

  const ProductCode: seq<int> := [LOAD_CONST, 0, LOAD_CONST, 1, MUL, STORE_VAR, 2, HALT]

  const ProductConsts: seq<Value> := [Float(2.0), Float(3.0), Str("x")]

  /** A fresh machine: `ip` 0, empty stack, no globals, not halted. */
  const Fresh: VMState := VMState(Int(0), [], map[], [], false, 0, [])

  /** The printed program parses back to its tree. */
  lemma ProductParses()
    ensures Parse(ProgramTokens(Product)) == Ok(Product)
  {
    ProgramRoundTrip(Product);
  }

  /** `compile(tree)` emits the two constant loads in operand order, MUL, the store
      into `x` and HALT; no POP follows an assignment. */
  lemma ProductCompiles()
    ensures var (st, err) := CompileNode(Initial, Product);
      err.None? && st.code == ProductCode && st.consts == ProductConsts
  {
    var s4 := AssignCompiles();
    var body := Product.body;
    assert body[..0] == [];
    assert ProgramBody(Initial, body) == (s4, None);
    assert s4.code + [HALT] == ProductCode;
  }

  /** The assignment alone: the product, then `x` joins the pool at index 2 and is the
      operand of STORE_VAR. */
  lemma AssignCompiles() returns (s4: CState)
    ensures CompileNode(Initial, Product.body[0]) == (s4, None)
    ensures s4.code == [LOAD_CONST, 0, LOAD_CONST, 1, MUL, STORE_VAR, 2] && s4.consts == ProductConsts
  {
    var s3 := ProductExpressionCompiles();
    var (s, idx) := PoolAdd(s3, Str("x"));
    assert Str("x") !in s3.constMap;
    assert idx == 2;
    s4 := EmitCode(s, STORE_VAR, Some(2));
  }

  /** `2 * 3`: left operand, right operand, then the opcode of `*`. */
  lemma ProductExpressionCompiles() returns (s3: CState)
    ensures CompileNode(Initial, BinaryOp("*", Number(2.0), Number(3.0))) == (s3, None)
    ensures s3.code == [LOAD_CONST, 0, LOAD_CONST, 1, MUL] && s3.consts == [Float(2.0), Float(3.0)]
    ensures s3.constMap == map[Float(2.0) := 0, Float(3.0) := 1]
  {
    var s1 := LeftOperandCompiles();
    var s2 := RightOperandCompiles(s1);
    assert BinaryOpcodes["*"] == MUL;
    s3 := EmitCode(s2, MUL, None);
  }

  lemma LeftOperandCompiles() returns (s1: CState)
    ensures s1 == CState([LOAD_CONST, 0], [Float(2.0)], map[Float(2.0) := 0])
    ensures CompileNode(Initial, Number(2.0)) == (s1, None)
  {
    s1 := CState([LOAD_CONST, 0], [Float(2.0)], map[Float(2.0) := 0]);
    var p := PoolAdd(Initial, Float(2.0));
    assert p.0.consts == [Float(2.0)] && p.1 == 0;
    assert EmitCode(p.0, LOAD_CONST, Some(0)).code == [LOAD_CONST, 0];
  }

  lemma RightOperandCompiles(s1: CState) returns (s2: CState)
    requires s1 == CState([LOAD_CONST, 0], [Float(2.0)], map[Float(2.0) := 0])
    ensures s2 == CState([LOAD_CONST, 0, LOAD_CONST, 1], [Float(2.0), Float(3.0)], map[Float(2.0) := 0, Float(3.0) := 1])
    ensures CompileNode(s1, Number(3.0)) == (s2, None)
  {
    s2 := CState([LOAD_CONST, 0, LOAD_CONST, 1], [Float(2.0), Float(3.0)], map[Float(2.0) := 0, Float(3.0) := 1]);
    assert Float(3.0) !in s1.constMap;
    var p := PoolAdd(s1, Float(3.0));
    assert p.0.consts == [Float(2.0), Float(3.0)] && p.1 == 1;
    assert EmitCode(p.0, LOAD_CONST, Some(1)).code == [LOAD_CONST, 0, LOAD_CONST, 1];
  }

  /** The machine after HALT: `x` bound to 6.0, nothing on the stack, five cycles. */
  const Halted: VMState := VMState(Int(8), [], map[KStr("x") := Float(6.0)], [], true, 5, [])

  /** From a fresh machine, five cycles run the code to HALT, leaving `x` bound to the
      float 6.0, an empty stack and no effects; any larger cycle budget ends the same. */
  lemma ProductRuns(n: int)
    requires n >= 5
    ensures var (s, fault) := Run(Env(ProductCode, ProductConsts, None), Fresh, n);
      && fault.None? && s.halted && s.stack == [] && s.effects == []
      && s.globals == map[KStr("x") := Float(6.0)] && s.cycleCount == 5
  {
    RunFromFresh(Env(ProductCode, ProductConsts, None), n);
  }

  lemma RunFromFresh(env: Env, n: int)
    requires env == Env(ProductCode, ProductConsts, None) && n >= 5
    ensures Run(env, Fresh, n) == (Halted, None)
  {
    RunAfterFirstLoad(env, n - 1);
    FirstLoadCycle(env, n, (Halted, None));
  }

  lemma RunAfterFirstLoad(env: Env, n: int)
    requires env == Env(ProductCode, ProductConsts, None) && n >= 4
    ensures Run(env, VMState(Int(2), [Float(2.0)], map[], [], false, 1, []), n) == (Halted, None)
  {
    RunAfterSecondLoad(env, n - 1);
    SecondLoadCycle(env, n, (Halted, None));
  }

  lemma RunAfterSecondLoad(env: Env, n: int)
    requires env == Env(ProductCode, ProductConsts, None) && n >= 3
    ensures Run(env, VMState(Int(4), [Float(2.0), Float(3.0)], map[], [], false, 2, []), n) == (Halted, None)
  {
    RunAfterMul(env, n - 1);
    MulCycle(env, n, (Halted, None));
  }

  lemma RunAfterMul(env: Env, n: int)
    requires env == Env(ProductCode, ProductConsts, None) && n >= 2
    ensures Run(env, VMState(Int(5), [Float(6.0)], map[], [], false, 3, []), n) == (Halted, None)
  {
    RunAfterStore(env, n - 1);
    StoreCycle(env, n, (Halted, None));
  }

  lemma RunAfterStore(env: Env, n: int)
    requires env == Env(ProductCode, ProductConsts, None) && n >= 1
    ensures Run(env, VMState(Int(7), [], map[KStr("x") := Float(6.0)], [], false, 4, []), n) == (Halted, None)
  {
    var s := VMState(Int(7), [], map[KStr("x") := Float(6.0)], [], false, 4, []);
    Cycle(env, s, HALT, s.(ip := Int(8), halted := true), n);
    HaltedStays(env, Halted, n - 1);
  }

  // One cycle for each instruction before HALT.

  lemma FirstLoadCycle(env: Env, n: int, final: Out)
    requires env == Env(ProductCode, ProductConsts, None) && n > 0
    requires Run(env, VMState(Int(2), [Float(2.0)], map[], [], false, 1, []), n - 1) == final
    ensures Run(env, Fresh, n) == final
  {
    FirstLoadExec(env);
    Cycle(env, Fresh, LOAD_CONST, VMState(Int(2), [Float(2.0)], map[], [], false, 0, []), n);
  }

  lemma SecondLoadCycle(env: Env, n: int, final: Out)
    requires env == Env(ProductCode, ProductConsts, None) && n > 0
    requires Run(env, VMState(Int(4), [Float(2.0), Float(3.0)], map[], [], false, 2, []), n - 1) == final
    ensures Run(env, VMState(Int(2), [Float(2.0)], map[], [], false, 1, []), n) == final
  {
    SecondLoadExec(env);
    Cycle(env, VMState(Int(2), [Float(2.0)], map[], [], false, 1, []), LOAD_CONST,
          VMState(Int(4), [Float(2.0), Float(3.0)], map[], [], false, 1, []), n);
  }

  lemma MulCycle(env: Env, n: int, final: Out)
    requires env == Env(ProductCode, ProductConsts, None) && n > 0
    requires Run(env, VMState(Int(5), [Float(6.0)], map[], [], false, 3, []), n - 1) == final
    ensures Run(env, VMState(Int(4), [Float(2.0), Float(3.0)], map[], [], false, 2, []), n) == final
  {
    MulExec(env);
    Cycle(env, VMState(Int(4), [Float(2.0), Float(3.0)], map[], [], false, 2, []), MUL,
          VMState(Int(5), [Float(6.0)], map[], [], false, 2, []), n);
  }

  lemma StoreCycle(env: Env, n: int, final: Out)
    requires env == Env(ProductCode, ProductConsts, None) && n > 0
    requires Run(env, VMState(Int(7), [], map[KStr("x") := Float(6.0)], [], false, 4, []), n - 1) == final
    ensures Run(env, VMState(Int(5), [Float(6.0)], map[], [], false, 3, []), n) == final
  {
    StoreExec(env);
    Cycle(env, VMState(Int(5), [Float(6.0)], map[], [], false, 3, []), STORE_VAR,
          VMState(Int(7), [], map[KStr("x") := Float(6.0)], [], false, 3, []), n);
  }

  // The four instructions before HALT, one at a time.

  lemma FirstLoadExec(env: Env)
    requires env == Env(ProductCode, ProductConsts, None)
    ensures Exec(env, Fresh.(ip := Int(1)), LOAD_CONST) == (VMState(Int(2), [Float(2.0)], map[], [], false, 0, []), None)
  {
    var s0 := Fresh.(ip := Int(1));
    assert Operand(env, s0) == Ok(0);
    assert Push(Advance(s0), Float(2.0)).stack == [Float(2.0)];
    assert Exec(env, s0, LOAD_CONST) == ExecData(env, s0, LOAD_CONST);
  }

  lemma SecondLoadExec(env: Env)
    requires env == Env(ProductCode, ProductConsts, None)
    ensures Exec(env, VMState(Int(3), [Float(2.0)], map[], [], false, 1, []), LOAD_CONST) ==
            (VMState(Int(4), [Float(2.0), Float(3.0)], map[], [], false, 1, []), None)
  {
    var s0 := VMState(Int(3), [Float(2.0)], map[], [], false, 1, []);
    assert Operand(env, s0) == Ok(1);
    assert Push(Advance(s0), Float(3.0)).stack == [Float(2.0), Float(3.0)];
    assert Exec(env, s0, LOAD_CONST) == ExecData(env, s0, LOAD_CONST);
  }

  lemma MulExec(env: Env)
    ensures Exec(env, VMState(Int(5), [Float(2.0), Float(3.0)], map[], [], false, 2, []), MUL) ==
            (VMState(Int(5), [Float(6.0)], map[], [], false, 2, []), None)
  {
    var s0 := VMState(Int(5), [Float(2.0), Float(3.0)], map[], [], false, 2, []);
    assert Mul(Float(2.0), Float(3.0)) == Some(Float(6.0));
    assert BinaryResult(MUL, Float(2.0), Float(3.0)) == Some(Float(6.0));
    assert s0.stack[..0] + [Float(6.0)] == [Float(6.0)];
    assert Exec(env, s0, MUL) == ExecBinary(s0, MUL);
  }

  lemma StoreExec(env: Env)
    requires env == Env(ProductCode, ProductConsts, None)
    ensures Exec(env, VMState(Int(6), [Float(6.0)], map[], [], false, 3, []), STORE_VAR) ==
            (VMState(Int(7), [], map[KStr("x") := Float(6.0)], [], false, 3, []), None)
  {
    var s0 := VMState(Int(6), [Float(6.0)], map[], [], false, 3, []);
    assert Operand(env, s0) == Ok(2);
    assert KeyOf(Str("x")) == KStr("x");
  }

  /** One cycle that runs `op` at `s.ip` without an exception. */
  lemma Cycle(env: Env, s: VMState, op: int, s1: VMState, n: int)
    requires n > 0 && !s.halted && s.ip.Int? && 0 <= s.ip.i < |env.code| && env.code[s.ip.i] == op
    requires Exec(env, s.(ip := Int(s.ip.i + 1)), op) == (s1, None)
    ensures Run(env, s, n) == Run(env, s1.(cycleCount := s1.cycleCount + 1), n - 1)
  {
    assert IpBelow(s.ip, |env.code|) == Ok(true);
    assert Fetch(env.code, s.ip) == Ok(op);
    RunStep(env, s, n);
  }

  /** The whole pipeline: the printed program parses back to its tree, which compiles
      without error to code that, on a fresh machine given at least five cycles, halts
      with `x` bound to 6.0. */
  lemma ParseCompileRun(n: int)
    requires n >= 5
    ensures Parse(ProgramTokens(Product)) == Ok(Product)
    ensures CompileNode(Initial, Product).1.None?
    ensures var st := CompileNode(Initial, Product).0;
      var (s, fault) := Run(Env(st.code, st.consts, None), Fresh, n);
      fault.None? && s.halted && KeyOf(Str("x")) in s.globals && s.globals[KeyOf(Str("x"))] == Float(6.0)
  {
    ProductParses();
    CompileThenRun(n);
  }

  lemma CompileThenRun(n: int)
    requires n >= 5
    ensures CompileNode(Initial, Product).1.None?
    ensures var st := CompileNode(Initial, Product).0;
      var (s, fault) := Run(Env(st.code, st.consts, None), Fresh, n);
      fault.None? && s.halted && KeyOf(Str("x")) in s.globals && s.globals[KeyOf(Str("x"))] == Float(6.0)
  {
    ProductCompiles();
    CompiledCodeRuns(CompileNode(Initial, Product).0, n);
  }

  lemma CompiledCodeRuns(st: CState, n: int)
    requires n >= 5 && st.code == ProductCode && st.consts == ProductConsts
    ensures var (s, fault) := Run(Env(st.code, st.consts, None), Fresh, n);
      fault.None? && s.halted && KeyOf(Str("x")) in s.globals && s.globals[KeyOf(Str("x"))] == Float(6.0)
  {
    ProductRuns(n);
    assert KeyOf(Str("x")) == KStr("x");
  }
}
