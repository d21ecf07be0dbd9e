/** The single-pass bytecode compiler of VM/Compiler.py. The functions below give
    the meaning of each `compile_*` visitor on an explicit compiler state; the class
    `Compiler` at the end is the object itself, whose methods update its three
    fields in place and are proved to produce exactly those states. */
module Compiler {
  import opened Common
  import opened Data
  import opened Values
  import opened Opcodes

  /** The two exceptions compilation raises: the SyntaxError of an operator outside
      the operator map, and the NotImplementedError of `no_visit`. */
  datatype CompileError = UnknownOperator(op: string) | NotImplemented(kind: string)

  /** `code`, `consts` and `const_map` of a Compiler object. */
  datatype CState = CState(code: seq<int>, consts: seq<Value>, constMap: map<Value, int>)

  /** A compilation step: the new state, and the exception if one was raised. When
      one was, the state is the one the object holds at the raise. */
  type Step = (CState, Option<CompileError>)

  const Initial := CState([], [], map[])

  /** `const_map` is the exact inverse of `consts`: every constant is keyed by its own
      index and every key indexes the pool. */
  predicate PoolInv(st: CState)
  {
    PoolMatches(st.consts, st.constMap)
  }

  predicate PoolMatches(consts: seq<Value>, constMap: map<Value, int>)
  {
    (forall i :: 0 <= i < |consts| ==> consts[i] in constMap && constMap[consts[i]] == i) &&
    (forall v :: v in constMap ==> 0 <= constMap[v] < |consts| && consts[constMap[v]] == v)
  }

  /** What every compilation step keeps: the code and the pool only grow at their
      ends, and the pool invariant is preserved. */
  predicate Extends(st: CState, st': CState)
  {
    |st.code| <= |st'.code| && st'.code[..|st.code|] == st.code &&
    |st.consts| <= |st'.consts| && st'.consts[..|st.consts|] == st.consts
  }

  /** `emit(opcode, operand)`: append the opcode, then the operand if given. */
  function EmitCode(st: CState, op: int, operand: Option<int>): (r: CState)
    ensures |r.code| == |st.code| + (if operand.Some? then 2 else 1)
    ensures r.code[..|st.code|] == st.code && r.code[|st.code|] == op
    ensures operand.Some? ==> r.code[|st.code| + 1] == operand.value
    ensures r.consts == st.consts && r.constMap == st.constMap
  {
    st.(code := st.code + [op] + (if operand.Some? then [operand.value] else []))
  }

  /** `add_const(value)`: the index of `v` in the pool, appending it when new. */
  function PoolAdd(st: CState, v: Value): (r: (CState, int))
    ensures r.0.code == st.code
    ensures PoolInv(st) ==> PoolInv(r.0) && 0 <= r.1 < |r.0.consts| && r.0.consts[r.1] == v
    ensures v in st.constMap ==> r == (st, st.constMap[v])
    ensures v !in st.constMap ==> r.0.consts == st.consts + [v] && r.1 == |st.consts|
  {
    if v in st.constMap then (st, st.constMap[v])
    else
      var idx := |st.consts|;
      (st.(consts := st.consts + [v], constMap := st.constMap[v := idx]), idx)
  }

  /** `self.code[at] = target`. */
  function Patch(st: CState, at: int, target: int): (r: CState)
    requires 0 <= at < |st.code|
    ensures |r.code| == |st.code| && r.code[at] == target
    ensures forall k :: 0 <= k < |st.code| && k != at ==> r.code[k] == st.code[k]
    ensures r.consts == st.consts && r.constMap == st.constMap
  {
    st.(code := st.code[at := target])
  }

  /** The `op_map` of `compile_BinaryOp`; `%` is not in it. */
  const BinaryOpcodes: map<string, int> := map[
    "+" := ADD, "-" := SUB, "*" := MUL, "/" := DIV,
    "==" := EQ, "~=" := NEQ, "<" := LT, "<=" := LTE, ">" := GT, ">=" := GTE]

  /** `if node.else_body:`: an absent or empty else list counts as no else. */
  predicate HasElse(els: ElseBody) { els.Else? && |els.stmts| > 0 }

  /** The statements after which `compile_Program` emits a POP. */
  predicate PopsAfter(n: Node) { n.BinaryOp? || n.Number? || n.String? || n.Call? }

  /** `compile(node)`: dispatch on the node's class. */
  function CompileNode(st: CState, n: Node): (r: Step)
    ensures Extends(st, r.0)
    decreases n, 2
  {
    match n
    case Program(_) => ProgramCode(st, n)
    case FuncDecl(_, _, _) => (st, Some(NotImplemented("FuncDecl")))
    case Number(x) =>
      var (s1, idx) := PoolAdd(st, Float(x));
      (EmitCode(s1, LOAD_CONST, Some(idx)), None)
    case String(x) =>
      var (s1, idx) := PoolAdd(st, Str(x));
      (EmitCode(s1, LOAD_CONST, Some(idx)), None)
    case Var(name) =>
      var (s1, idx) := PoolAdd(st, Str(name));
      (EmitCode(s1, LOAD_VAR, Some(idx)), None)
    case Assign(name, value) =>
      var (s1, e1) := CompileNode(st, value);
      if e1.Some? then (s1, e1)
      else
        var (s2, idx) := PoolAdd(s1, Str(name));
        (EmitCode(s2, STORE_VAR, Some(idx)), None)
    case BinaryOp(op, left, right) =>
      var (s1, e1) := CompileNode(st, left);
      if e1.Some? then (s1, e1)
      else
        var (s2, e2) := CompileNode(s1, right);
        if e2.Some? then (s2, e2)
        else if op in BinaryOpcodes then (EmitCode(s2, BinaryOpcodes[op], None), None)
        else (s2, Some(UnknownOperator(op)))
    case UnaryOp(op, value) =>
      var (s1, e1) := CompileNode(st, value);
      if e1.Some? then (s1, e1)
      else if op == "-" then (EmitCode(s1, NEG, None), None)
      else (s1, None)
    case If(_, _, _) => IfCode(st, n)
    case While(_, _) => WhileCode(st, n)
    case Return(result) =>
      var (s1, e1) :=
        if result.Some? then CompileNode(st, result.value)
        else
          var (s0, idx) := PoolAdd(st, NoneV);
          (EmitCode(s0, LOAD_CONST, Some(idx)), None);
      if e1.Some? then (s1, e1) else (EmitCode(s1, RET, None), None)
    case Call(_, _) => CallCode(st, n)
  }

  /** `for stmt in body: self.compile(stmt)`, stopping at the first exception. */
  function CompileSeq(st: CState, ns: seq<Node>): (r: Step)
    ensures Extends(st, r.0)
    decreases ns, 0
  {
    if ns == [] then (st, None)
    else
      var (s1, e1) := CompileSeq(st, ns[..|ns| - 1]);
      if e1.Some? then (s1, e1) else CompileNode(s1, ns[|ns| - 1])
  }

  /** An exception ends the statement loop: later statements are not compiled. */
  lemma {:induction false} SeqStopsAtError(st: CState, ns: seq<Node>, k: int)
    requires 0 <= k <= |ns| && CompileSeq(st, ns[..k]).1.Some?
    ensures CompileSeq(st, ns) == CompileSeq(st, ns[..k])
    decreases |ns|
  {
    if k < |ns| {
      var p := ns[..|ns| - 1];
      assert p[..k] == ns[..k];
      SeqStopsAtError(st, p, k);
    } else {
      assert ns[..k] == ns;
    }
  }

  /** The statement loop of `compile_Program`, with a POP after expression statements. */
  function ProgramBody(st: CState, ns: seq<Node>): (r: Step)
    ensures Extends(st, r.0)
    decreases ns, 0
  {
    if ns == [] then (st, None)
    else
      var (s1, e1) := ProgramBody(st, ns[..|ns| - 1]);
      if e1.Some? then (s1, e1)
      else
        var last := ns[|ns| - 1];
        var (s2, e2) := CompileNode(s1, last);
        if e2.Some? then (s2, e2)
        else if PopsAfter(last) then (EmitCode(s2, POP, None), None)
        else (s2, None)
  }

  lemma {:induction false} BodyStopsAtError(st: CState, ns: seq<Node>, k: int)
    requires 0 <= k <= |ns| && ProgramBody(st, ns[..k]).1.Some?
    ensures ProgramBody(st, ns) == ProgramBody(st, ns[..k])
    decreases |ns|
  {
    if k < |ns| {
      var p := ns[..|ns| - 1];
      assert p[..k] == ns[..k];
      BodyStopsAtError(st, p, k);
    } else {
      assert ns[..k] == ns;
    }
  }

  /** `compile_Program`: the statements, then HALT. */
  function ProgramCode(st: CState, n: Node): (r: Step)
    requires n.Program?
    ensures Extends(st, r.0)
    decreases n, 0
  {
    var (s1, e1) := ProgramBody(st, n.body);
    if e1.Some? then (s1, e1) else (EmitCode(s1, HALT, None), None)
  }

  /** `compile_If`: condition, JMP_IF_FALSE placeholder, true body, and with a
      non-empty else a JMP placeholder and the else body; both placeholders are
      patched to the addresses that follow. */
  function IfCode(st: CState, n: Node): (r: Step)
    requires n.If?
    ensures Extends(st, r.0)
    decreases n, 1
  {
    var (s1, e1) := CompileNode(st, n.cond);
    if e1.Some? then (s1, e1)
    else
      var s2 := EmitCode(s1, JMP_IF_FALSE, Some(0));
      var toElse := |s2.code| - 1;
      var (s3, e3) := CompileSeq(s2, n.body);
      if e3.Some? then (s3, e3)
      else
        ExtendsTransitive(st, s2, s3);
        IfTail(st, s3, n, toElse)
  }

  /** The rest of `compile_If` once the true body is compiled: `toElse` is the
      operand word of the JMP_IF_FALSE placeholder. */
  function IfTail(st: CState, s3: CState, n: Node, toElse: int): (r: Step)
    requires n.If? && Extends(st, s3) && |st.code| <= toElse < |s3.code|
    ensures Extends(st, r.0)
    decreases n, 0
  {
    if HasElse(n.elseBody) then
      var s4 := EmitCode(s3, JMP, Some(0));
      var toEnd := |s4.code| - 1;
      ExtendsTransitive(st, s3, s4);
      var s5 := Patch(s4, toElse, |s4.code|);
      PatchExtends(st, s4, toElse, |s4.code|);
      var (s6, e6) := CompileSeq(s5, n.elseBody.stmts);
      ExtendsTransitive(st, s5, s6);
      if e6.Some? then (s6, e6)
      else
        PatchExtends(st, s6, toEnd, |s6.code|);
        (Patch(s6, toEnd, |s6.code|), None)
    else
      PatchExtends(st, s3, toElse, |s3.code|);
      (Patch(s3, toElse, |s3.code|), None)
  }

  lemma ExtendsTransitive(a: CState, b: CState, c: CState)
    requires Extends(a, b) && Extends(b, c)
    ensures Extends(a, c)
  {
    assert c.code[..|a.code|] == c.code[..|b.code|][..|a.code|];
    assert c.consts[..|a.consts|] == c.consts[..|b.consts|][..|a.consts|];
  }

  /** Patching a word that lies beyond `st`'s code keeps the extension. */
  lemma PatchExtends(st: CState, s: CState, at: int, target: int)
    requires Extends(st, s) && |st.code| <= at < |s.code|
    ensures Extends(st, Patch(s, at, target))
  {
    var p := Patch(s, at, target);
    assert p.code[..|st.code|] == s.code[..|st.code|];
  }

  /** `compile_While`: condition, exit placeholder, body, a JMP back to the
      condition, and the exit patched to the address after that JMP. */
  function WhileCode(st: CState, n: Node): (r: Step)
    requires n.While?
    ensures Extends(st, r.0)
    decreases n, 0
  {
    var loopStart := |st.code|;
    var (s1, e1) := CompileNode(st, n.cond);
    if e1.Some? then (s1, e1)
    else
      var s2 := EmitCode(s1, JMP_IF_FALSE, Some(0));
      var exit := |s2.code| - 1;
      var (s3, e3) := CompileSeq(s2, n.body);
      if e3.Some? then (s3, e3)
      else
        var s4 := EmitCode(s3, JMP, Some(loopStart));
        (Patch(s4, exit, |s4.code|), None)
  }

  /** `compile_Call`: the arguments left to right, then `SYS id argc` for a
      syscall name, else `LOAD_CONST name` and `CALL argc`. */
  function CallCode(st: CState, n: Node): (r: Step)
    requires n.Call?
    ensures Extends(st, r.0)
    decreases n, 0
  {
    var (s1, e1) := CompileSeq(st, n.args);
    if e1.Some? then (s1, e1)
    else if n.name in SysFunctions then
      (EmitCode(EmitCode(s1, SYS, Some(SysFunctions[n.name])), |n.args|, None), None)
    else
      var (s2, idx) := PoolAdd(s1, Str(n.name));
      (EmitCode(EmitCode(s2, LOAD_CONST, Some(idx)), CALL, Some(|n.args|)), None)
  }

  /** The Compiler object. Each method is proved to leave the object in the state
      the functions above compute, and to raise (return `Some`) exactly when they do. */
  class Compiler {
    var code: seq<int>
    var consts: seq<Value>
    var constMap: map<Value, int>

    function State(): CState
      reads this
    {
      CState(code, consts, constMap)
    }

    constructor()
      ensures State() == Initial && PoolInv(State())
    {
      code := [];
      consts := [];
      constMap := map[];
    }

    method Emit(op: int, operand: Option<int>)
      modifies this
      ensures State() == EmitCode(old(State()), op, operand)
    {
      code := code + [op];
      if operand.Some? {
        code := code + [operand.value];
      }
    }

    method AddConst(v: Value) returns (idx: int)
      modifies this
      ensures (State(), idx) == PoolAdd(old(State()), v)
    {
      if v in constMap {
        return constMap[v];
      }
      idx := |consts|;
      consts := consts + [v];
      constMap := constMap[v := idx];
    }

    /** `compile`: dispatch to the visitor for the node's class, or `no_visit`. */
    method Compile(n: Node) returns (err: Option<CompileError>)
      modifies this
      ensures (State(), err) == CompileNode(old(State()), n)
      decreases n, 1
    {
      match n
      case Program(_) => err := CompileProgram(n);
      case FuncDecl(_, _, _) => err := NoVisit(n);
      case Number(_) => err := CompileNumber(n);
      case String(_) => err := CompileString(n);
      case Var(_) => err := CompileVar(n);
      case Assign(_, _) => err := CompileAssign(n);
      case BinaryOp(_, _, _) => err := CompileBinaryOp(n);
      case UnaryOp(_, _) => err := CompileUnaryOp(n);
      case If(_, _, _) => err := CompileIf(n);
      case While(_, _) => err := CompileWhile(n);
      case Return(_) => err := CompileReturn(n);
      case Call(_, _) => err := CompileCall(n);
    }

    /** `no_visit`: raise NotImplementedError, changing nothing. */
    method NoVisit(n: Node) returns (err: Option<CompileError>)
      requires n.FuncDecl?
      ensures err == Some(NotImplemented("FuncDecl"))
    {
      err := Some(NotImplemented("FuncDecl"));
    }

    /** The `for stmt in ...: self.compile(stmt)` loop shared by the visitors. */
    method CompileAll(ns: seq<Node>) returns (err: Option<CompileError>)
      modifies this
      ensures (State(), err) == CompileSeq(old(State()), ns)
      decreases ns, 0
    {
      err := None;
      var i := 0;
      while i < |ns|
        invariant 0 <= i <= |ns|
        invariant err.None? && CompileSeq(old(State()), ns[..i]) == (State(), None)
      {
        assert ns[..i + 1][..i] == ns[..i];
        err := Compile(ns[i]);
        if err.Some? {
          SeqStopsAtError(old(State()), ns, i + 1);
          return;
        }
        i := i + 1;
      }
      assert ns[..i] == ns;
    }

    method CompileProgram(n: Node) returns (err: Option<CompileError>)
      requires n.Program?
      modifies this
      ensures (State(), err) == CompileNode(old(State()), n)
      decreases n, 0
    {
      err := None;
      var i := 0;
      while i < |n.body|
        invariant 0 <= i <= |n.body|
        invariant err.None? && ProgramBody(old(State()), n.body[..i]) == (State(), None)
      {
        assert n.body[..i + 1][..i] == n.body[..i];
        var stmt := n.body[i];
        err := Compile(stmt);
        if err.Some? {
          BodyStopsAtError(old(State()), n.body, i + 1);
          return;
        }
        if PopsAfter(stmt) {
          Emit(POP, None);
        }
        i := i + 1;
      }
      assert n.body[..i] == n.body;
      Emit(HALT, None);
    }

    method CompileNumber(n: Node) returns (err: Option<CompileError>)
      requires n.Number?
      modifies this
      ensures (State(), err) == CompileNode(old(State()), n)
    {
      var idx := AddConst(Float(n.num));
      Emit(LOAD_CONST, Some(idx));
      err := None;
    }

    method CompileString(n: Node) returns (err: Option<CompileError>)
      requires n.String?
      modifies this
      ensures (State(), err) == CompileNode(old(State()), n)
    {
      var idx := AddConst(Str(n.text));
      Emit(LOAD_CONST, Some(idx));
      err := None;
    }

    method CompileVar(n: Node) returns (err: Option<CompileError>)
      requires n.Var?
      modifies this
      ensures (State(), err) == CompileNode(old(State()), n)
    {
      var idx := AddConst(Str(n.name));
      Emit(LOAD_VAR, Some(idx));
      err := None;
    }

    method CompileAssign(n: Node) returns (err: Option<CompileError>)
      requires n.Assign?
      modifies this
      ensures (State(), err) == CompileNode(old(State()), n)
      decreases n, 0
    {
      err := Compile(n.value);
      if err.Some? {
        return;
      }
      var idx := AddConst(Str(n.name));
      Emit(STORE_VAR, Some(idx));
    }

    method CompileBinaryOp(n: Node) returns (err: Option<CompileError>)
      requires n.BinaryOp?
      modifies this
      ensures (State(), err) == CompileNode(old(State()), n)
      decreases n, 0
    {
      err := Compile(n.left);
      if err.Some? {
        return;
      }
      err := Compile(n.right);
      if err.Some? {
        return;
      }
      if n.op in BinaryOpcodes {
        Emit(BinaryOpcodes[n.op], None);
      } else {
        err := Some(UnknownOperator(n.op));
      }
    }

    method CompileUnaryOp(n: Node) returns (err: Option<CompileError>)
      requires n.UnaryOp?
      modifies this
      ensures (State(), err) == CompileNode(old(State()), n)
      decreases n, 0
    {
      err := Compile(n.value);
      if err.Some? {
        return;
      }
      if n.op == "-" {
        Emit(NEG, None);
      }
    }

    method CompileIf(n: Node) returns (err: Option<CompileError>)
      requires n.If?
      modifies this
      ensures (State(), err) == CompileNode(old(State()), n)
      decreases n, 0
    {
      ghost var s0 := State();
      assert CompileNode(s0, n) == IfCode(s0, n);
      err := Compile(n.cond);
      if err.Some? {
        return;
      }
      Emit(JMP_IF_FALSE, Some(0));
      var jumpToElse := |code| - 1;
      ghost var s2 := State();
      err := CompileAll(n.body);
      if err.Some? {
        return;
      }
      ghost var s3 := State();
      assert IfCode(s0, n) == IfTail(s0, s3, n, jumpToElse);
      if HasElse(n.elseBody) {
        Emit(JMP, Some(0));
        var jumpToEnd := |code| - 1;
        code := code[jumpToElse := |code|];
        err := CompileAll(n.elseBody.stmts);
        if err.Some? {
          return;
        }
        code := code[jumpToEnd := |code|];
      } else {
        code := code[jumpToElse := |code|];
      }
    }

    method CompileWhile(n: Node) returns (err: Option<CompileError>)
      requires n.While?
      modifies this
      ensures (State(), err) == CompileNode(old(State()), n)
      decreases n, 0
    {
      var loopStart := |code|;
      err := Compile(n.cond);
      if err.Some? {
        return;
      }
      Emit(JMP_IF_FALSE, Some(0));
      var exitJump := |code| - 1;
      err := CompileAll(n.body);
      if err.Some? {
        return;
      }
      Emit(JMP, Some(loopStart));
      code := code[exitJump := |code|];
    }

    method CompileReturn(n: Node) returns (err: Option<CompileError>)
      requires n.Return?
      modifies this
      ensures (State(), err) == CompileNode(old(State()), n)
      decreases n, 0
    {
      if n.result.Some? {
        err := Compile(n.result.value);
        if err.Some? {
          return;
        }
      } else {
        var idx := AddConst(NoneV);
        Emit(LOAD_CONST, Some(idx));
        err := None;
      }
      Emit(RET, None);
    }

    method CompileCall(n: Node) returns (err: Option<CompileError>)
      requires n.Call?
      modifies this
      ensures (State(), err) == CompileNode(old(State()), n)
      decreases n, 0
    {
      err := CompileAll(n.args);
      if err.Some? {
        return;
      }
      if n.name in SysFunctions {
        Emit(SYS, Some(SysFunctions[n.name]));
        Emit(|n.args|, None);
      } else {
        var idx := AddConst(Str(n.name));
        Emit(LOAD_CONST, Some(idx));
        Emit(CALL, Some(|n.args|));
      }
    }
  }
}
