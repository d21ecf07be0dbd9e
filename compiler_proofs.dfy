/** Properties of the compiler of VM/Compiler.py: the constant pool never holds
    duplicates, every compiled program decodes into whole instructions whose jump
    operands stay inside the code, the backpatched jumps land where the visitors
    say, and the compile errors arise where they should. */
module CompilerProofs {
  import opened Common
  import opened Data
  import opened Values
  import opened Opcodes
  import opened Compiler

  // ---------------------------------------------------------------------------
  // The constant pool

  /** A pool whose map is its inverse holds no value twice. */
  lemma PoolDistinct(st: CState)
    requires PoolInv(st)
    ensures forall i, j :: 0 <= i < j < |st.consts| ==> st.consts[i] != st.consts[j]
  {
    forall i, j | 0 <= i < j < |st.consts|
      ensures st.consts[i] != st.consts[j]
    {
      assert st.constMap[st.consts[i]] == i && st.constMap[st.consts[j]] == j;
    }
  }

  lemma {:induction false} NodeKeepsPool(st: CState, n: Node)
    requires PoolInv(st)
    ensures PoolInv(CompileNode(st, n).0)
    decreases n, 1
  {
    match n
    case Program(body) => BodyKeepsPool(st, body);
    case FuncDecl(_, _, _) =>
    case Number(_) =>
    case String(_) =>
    case Var(_) =>
    case Assign(_, _) => AssignKeepsPool(st, n);
    case BinaryOp(_, _, _) => BinaryKeepsPool(st, n);
    case UnaryOp(_, value) => NodeKeepsPool(st, value);
    case If(_, _, _) => IfKeepsPool(st, n);
    case While(_, _) => WhileKeepsPool(st, n);
    case Return(_) => ReturnKeepsPool(st, n);
    case Call(_, args) => SeqKeepsPool(st, args);
  }

  lemma {:induction false} AssignKeepsPool(st: CState, n: Node)
    requires PoolInv(st) && n.Assign?
    ensures PoolInv(CompileNode(st, n).0)
    decreases n, 0
  {
    NodeKeepsPool(st, n.value);
  }

  lemma {:induction false} BinaryKeepsPool(st: CState, n: Node)
    requires PoolInv(st) && n.BinaryOp?
    ensures PoolInv(CompileNode(st, n).0)
    decreases n, 0
  {
    NodeKeepsPool(st, n.left);
    NodeKeepsPool(CompileNode(st, n.left).0, n.right);
  }

  lemma {:induction false} WhileKeepsPool(st: CState, n: Node)
    requires PoolInv(st) && n.While?
    ensures PoolInv(CompileNode(st, n).0)
    decreases n, 0
  {
    NodeKeepsPool(st, n.cond);
    SeqKeepsPool(EmitCode(CompileNode(st, n.cond).0, JMP_IF_FALSE, Some(0)), n.body);
  }

  lemma {:induction false} ReturnKeepsPool(st: CState, n: Node)
    requires PoolInv(st) && n.Return?
    ensures PoolInv(CompileNode(st, n).0)
    decreases n, 0
  {
    if n.result.Some? {
      NodeKeepsPool(st, n.result.value);
    }
  }

  lemma {:induction false} IfKeepsPool(st: CState, n: Node)
    requires PoolInv(st) && n.If?
    ensures PoolInv(CompileNode(st, n).0)
    decreases n, 0
  {
    NodeKeepsPool(st, n.cond);
    var (s1, e1) := CompileNode(st, n.cond);
    if e1.None? {
      var s2 := EmitCode(s1, JMP_IF_FALSE, Some(0));
      SeqKeepsPool(s2, n.body);
      var (s3, e3) := CompileSeq(s2, n.body);
      if e3.None? {
        assert CompileNode(st, n) == IfTail(st, s3, n, |s2.code| - 1);
        if HasElse(n.elseBody) {
          var s4 := EmitCode(s3, JMP, Some(0));
          var s5 := Patch(s4, |s2.code| - 1, |s4.code|);
          SeqKeepsPool(s5, n.elseBody.stmts);
        }
      }
    }
  }

  lemma {:induction false} SeqKeepsPool(st: CState, ns: seq<Node>)
    requires PoolInv(st)
    ensures PoolInv(CompileSeq(st, ns).0)
    decreases ns, 0
  {
    if ns != [] {
      SeqKeepsPool(st, ns[..|ns| - 1]);
      NodeKeepsPool(CompileSeq(st, ns[..|ns| - 1]).0, ns[|ns| - 1]);
    }
  }

  lemma {:induction false} BodyKeepsPool(st: CState, ns: seq<Node>)
    requires PoolInv(st)
    ensures PoolInv(ProgramBody(st, ns).0)
    decreases ns, 0
  {
    if ns != [] {
      BodyKeepsPool(st, ns[..|ns| - 1]);
      NodeKeepsPool(ProgramBody(st, ns[..|ns| - 1]).0, ns[|ns| - 1]);
    }
  }

  /** Compiling any node from a fresh Compiler leaves a duplicate-free pool whose
      map is its inverse, whether or not compilation raised. */
  lemma CompiledPoolDistinct(n: Node)
    ensures var st := CompileNode(Initial, n).0;
      PoolInv(st) && forall i, j :: 0 <= i < j < |st.consts| ==> st.consts[i] != st.consts[j]
  {
    NodeKeepsPool(Initial, n);
    PoolDistinct(CompileNode(Initial, n).0);
  }

  // ---------------------------------------------------------------------------
  // Instruction layout

  /** The words from `pc` to `end` decode as whole instructions (each opcode with the
      operand words `OperandCount` gives it), and every jump operand among them is an
      address between 0 and `hi`. */
  predicate WalkOk(code: seq<int>, pc: int, end: int, hi: int)
    requires 0 <= pc <= end <= |code|
    decreases end - pc
  {
    pc == end ||
    (var next := pc + 1 + OperandCount(code[pc]);
     next <= end && (IsJump(code[pc]) ==> 0 <= code[pc + 1] <= hi) && WalkOk(code, next, end, hi))
  }

  lemma {:induction false} WalkAppend(code: seq<int>, a: int, b: int, e: int, hi: int)
    requires 0 <= a <= b <= e <= |code|
    requires WalkOk(code, a, b, hi) && WalkOk(code, b, e, hi)
    ensures WalkOk(code, a, e, hi)
    decreases b - a
  {
    if a < b {
      WalkAppend(code, a + 1 + OperandCount(code[a]), b, e, hi);
    }
  }

  /** A walk depends only on the words it covers, and survives a larger bound. */
  lemma {:induction false} WalkFrame(c1: seq<int>, c2: seq<int>, a: int, e: int, h1: int, h2: int)
    requires 0 <= a <= e <= |c1| && e <= |c2| && h1 <= h2
    requires forall k :: a <= k < e ==> c1[k] == c2[k]
    requires WalkOk(c1, a, e, h1)
    ensures WalkOk(c2, a, e, h2)
    decreases e - a
  {
    if a < e {
      WalkFrame(c1, c2, a + 1 + OperandCount(c1[a]), e, h1, h2);
    }
  }

  /** One instruction of `1 + OperandCount(op)` words. */
  lemma WalkOne(code: seq<int>, pc: int, hi: int)
    requires 0 <= pc < |code| && pc + 1 + OperandCount(code[pc]) <= |code|
    requires IsJump(code[pc]) ==> 0 <= code[pc + 1] <= hi
    ensures WalkOk(code, pc, pc + 1 + OperandCount(code[pc]), hi)
  {
    var next := pc + 1 + OperandCount(code[pc]);
    assert WalkOk(code, next, next, hi);
  }

  /** A segment of `s`'s code carried into a later state `t` that agrees with it there. */
  lemma Carry(s: CState, t: CState, a: int, e: int, hi: int)
    requires 0 <= a <= e <= |s.code| <= |t.code| && |s.code| <= hi
    requires forall k :: a <= k < e ==> t.code[k] == s.code[k]
    requires WalkOk(s.code, a, e, |s.code|)
    ensures WalkOk(t.code, a, e, hi)
  {
    WalkFrame(s.code, t.code, a, e, |s.code|, hi);
  }

  /** What a compilation step that did not raise lays down: whole instructions whose
      jump operands stay within the code compiled so far. */
  predicate Laid(st: CState, r: Step)
  {
    Extends(st, r.0) && (r.1.None? ==> WalkOk(r.0.code, |st.code|, |r.0.code|, |r.0.code|))
  }

  lemma {:induction false} NodeLaid(st: CState, n: Node)
    ensures Laid(st, CompileNode(st, n))
    decreases n, 3
  {
    match n
    case Program(_) => ProgramLaid(st, n);
    case FuncDecl(_, _, _) =>
    case Number(x) => LeafLaid(st, Float(x), LOAD_CONST);
    case String(x) => LeafLaid(st, Str(x), LOAD_CONST);
    case Var(name) => LeafLaid(st, Str(name), LOAD_VAR);
    case Assign(_, _) => AssignLaid(st, n);
    case BinaryOp(_, _, _) => BinaryLaid(st, n);
    case UnaryOp(_, _) => UnaryLaid(st, n);
    case If(_, _, _) => IfLaid(st, n);
    case While(_, _) => WhileLaid(st, n);
    case Return(_) => ReturnLaid(st, n);
    case Call(_, _) => CallLaid(st, n);
  }

  lemma {:induction false} AssignLaid(st: CState, n: Node)
    requires n.Assign?
    ensures Laid(st, CompileNode(st, n))
    decreases n, 0
  {
    NodeLaid(st, n.value);
    var (s1, e1) := CompileNode(st, n.value);
    if e1.None? {
      LeafLaid(s1, Str(n.name), STORE_VAR);
      SplitWalk(st, s1, CompileNode(st, n).0);
    }
  }

  lemma {:induction false} BinaryLaid(st: CState, n: Node)
    requires n.BinaryOp?
    ensures Laid(st, CompileNode(st, n))
    decreases n, 0
  {
    NodeLaid(st, n.left);
    var (s1, e1) := CompileNode(st, n.left);
    if e1.None? {
      NodeLaid(s1, n.right);
      var (s2, e2) := CompileNode(s1, n.right);
      if e2.None? && n.op in BinaryOpcodes {
        SplitWalk(st, s1, s2);
        var opc := BinaryOpcodes[n.op];
        assert OperandCount(opc) == 0;
        ZeroOperandLaid(st, s2, opc);
      }
    }
  }

  lemma {:induction false} UnaryLaid(st: CState, n: Node)
    requires n.UnaryOp?
    ensures Laid(st, CompileNode(st, n))
    decreases n, 0
  {
    NodeLaid(st, n.value);
    var (s1, e1) := CompileNode(st, n.value);
    if e1.None? && n.op == "-" {
      ZeroOperandLaid(st, s1, NEG);
    }
  }

  lemma {:induction false} ReturnLaid(st: CState, n: Node)
    requires n.Return?
    ensures Laid(st, CompileNode(st, n))
    decreases n, 0
  {
    var s1;
    if n.result.Some? {
      NodeLaid(st, n.result.value);
      s1 := CompileNode(st, n.result.value).0;
    } else {
      var (s0, idx) := PoolAdd(st, NoneV);
      LeafLaid(st, NoneV, LOAD_CONST);
      s1 := EmitCode(s0, LOAD_CONST, Some(idx));
    }
    if CompileNode(st, n).1.None? {
      ZeroOperandLaid(st, s1, RET);
    }
  }

  /** Joining a walk from `st` to `s1` with a walk from `s1` to `s2`. */
  lemma SplitWalk(st: CState, s1: CState, s2: CState)
    requires Extends(st, s1) && Extends(s1, s2)
    requires WalkOk(s1.code, |st.code|, |s1.code|, |s1.code|)
    requires WalkOk(s2.code, |s1.code|, |s2.code|, |s2.code|)
    ensures WalkOk(s2.code, |st.code|, |s2.code|, |s2.code|)
  {
    assert forall k :: |st.code| <= k < |s1.code| ==> s2.code[k] == s2.code[..|s1.code|][k];
    Carry(s1, s2, |st.code|, |s1.code|, |s2.code|);
    WalkAppend(s2.code, |st.code|, |s1.code|, |s2.code|, |s2.code|);
  }

  /** `add_const` followed by one instruction with that index as its operand. */
  lemma LeafLaid(st: CState, v: Value, op: int)
    requires op in {LOAD_CONST, LOAD_VAR, STORE_VAR}
    ensures var (s1, idx) := PoolAdd(st, v); Laid(st, (EmitCode(s1, op, Some(idx)), None))
  {
    var (s1, idx) := PoolAdd(st, v);
    var t := EmitCode(s1, op, Some(idx));
    WalkOne(t.code, |st.code|, |t.code|);
  }

  /** A walk up to `s` followed by one operand-less instruction. */
  lemma ZeroOperandLaid(st: CState, s: CState, op: int)
    requires Extends(st, s) && WalkOk(s.code, |st.code|, |s.code|, |s.code|)
    requires OperandCount(op) == 0
    ensures Laid(st, (EmitCode(s, op, None), None))
  {
    var t := EmitCode(s, op, None);
    WalkOne(t.code, |s.code|, |t.code|);
    SplitWalk(st, s, t);
  }

  lemma {:induction false} SeqLaid(st: CState, ns: seq<Node>)
    ensures Laid(st, CompileSeq(st, ns))
    decreases ns, 0
  {
    if ns == [] {
      assert WalkOk(st.code, |st.code|, |st.code|, |st.code|);
    } else {
      var p := ns[..|ns| - 1];
      SeqLaid(st, p);
      var (s1, e1) := CompileSeq(st, p);
      if e1.None? {
        NodeLaid(s1, ns[|ns| - 1]);
        var r := CompileNode(s1, ns[|ns| - 1]);
        if r.1.None? {
          SplitWalk(st, s1, r.0);
        }
      }
    }
  }

  lemma {:induction false} BodyLaid(st: CState, ns: seq<Node>)
    ensures Laid(st, ProgramBody(st, ns))
    decreases ns, 0
  {
    if ns == [] {
      assert WalkOk(st.code, |st.code|, |st.code|, |st.code|);
    } else {
      var p := ns[..|ns| - 1];
      BodyLaid(st, p);
      var (s1, e1) := ProgramBody(st, p);
      if e1.None? {
        var last := ns[|ns| - 1];
        NodeLaid(s1, last);
        var r := CompileNode(s1, last);
        if r.1.None? {
          SplitWalk(st, s1, r.0);
          if PopsAfter(last) {
            ZeroOperandLaid(st, r.0, POP);
          }
        }
      }
    }
  }

  lemma {:induction false} ProgramLaid(st: CState, n: Node)
    requires n.Program?
    ensures Laid(st, CompileNode(st, n))
    decreases n, 0
  {
    BodyLaid(st, n.body);
    var (s1, e1) := ProgramBody(st, n.body);
    if e1.None? {
      ZeroOperandLaid(st, s1, HALT);
    }
  }

  lemma {:induction false} CallLaid(st: CState, n: Node)
    requires n.Call?
    ensures Laid(st, CompileNode(st, n))
    decreases n, 0
  {
    SeqLaid(st, n.args);
    var (s1, e1) := CompileSeq(st, n.args);
    if e1.None? {
      var t := CompileNode(st, n).0;
      if n.name in SysFunctions {
        WalkOne(t.code, |s1.code|, |t.code|);
      } else {
        var (s2, idx) := PoolAdd(s1, Str(n.name));
        WalkOne(t.code, |s1.code|, |t.code|);
        WalkOne(t.code, |s1.code| + 2, |t.code|);
        WalkAppend(t.code, |s1.code|, |s1.code| + 2, |t.code|, |t.code|);
      }
      SplitWalk(st, s1, t);
    }
  }

  /** A later state keeps the words of an earlier one it extends. */
  lemma ExtendsAgree(s: CState, t: CState)
    requires Extends(s, t)
    ensures forall k :: 0 <= k < |s.code| ==> t.code[k] == s.code[k]
  {
    forall k | 0 <= k < |s.code|
      ensures t.code[k] == s.code[k]
    {
      assert t.code[..|s.code|][k] == t.code[k];
    }
  }

  lemma {:induction false} WhileLaid(st: CState, n: Node)
    requires n.While?
    ensures Laid(st, CompileNode(st, n))
    decreases n, 0
  {
    var r := CompileNode(st, n);
    NodeLaid(st, n.cond);
    var (s1, e1) := CompileNode(st, n.cond);
    if e1.None? {
      var s2 := EmitCode(s1, JMP_IF_FALSE, Some(0));
      SeqLaid(s2, n.body);
      var (s3, e3) := CompileSeq(s2, n.body);
      if e3.None? {
        var c0, c1, c3 := |st.code|, |s1.code|, |s3.code|;
        var s4 := EmitCode(s3, JMP, Some(c0));
        var t := Patch(s4, c1 + 1, |s4.code|);
        assert r.0 == t;
        ExtendsTransitive(s1, s2, s3);
        ExtendsAgree(s1, s3);
        ExtendsAgree(s2, s3);
        LoopAssembled(st, s1, s3, t);
      }
    }
  }

  /** Condition, exit jump, body and back jump of a `while` form one walk. */
  lemma LoopAssembled(st: CState, s1: CState, s3: CState, t: CState)
    requires |st.code| <= |s1.code| && |s1.code| + 2 <= |s3.code| && |t.code| == |s3.code| + 2
    requires WalkOk(s1.code, |st.code|, |s1.code|, |s1.code|)
    requires WalkOk(s3.code, |s1.code| + 2, |s3.code|, |s3.code|)
    requires forall k :: 0 <= k < |s1.code| ==> t.code[k] == s1.code[k]
    requires forall k :: |s1.code| + 2 <= k < |s3.code| ==> t.code[k] == s3.code[k]
    requires t.code[|s1.code|] == JMP_IF_FALSE && t.code[|s1.code| + 1] == |t.code|
    requires t.code[|s3.code|] == JMP && t.code[|s3.code| + 1] == |st.code|
    ensures WalkOk(t.code, |st.code|, |t.code|, |t.code|)
  {
    var c0, c1, c3 := |st.code|, |s1.code|, |s3.code|;
    Carry(s1, t, c0, c1, |t.code|);
    WalkOne(t.code, c1, |t.code|);
    Carry(s3, t, c1 + 2, c3, |t.code|);
    WalkOne(t.code, c3, |t.code|);
    WalkAppend(t.code, c1 + 2, c3, c3 + 2, |t.code|);
    WalkAppend(t.code, c1, c1 + 2, c3 + 2, |t.code|);
    WalkAppend(t.code, c0, c1, c3 + 2, |t.code|);
  }

  /** The part of `compile_If` after the true body lays down whole instructions,
      leaves the earlier words alone except the JMP_IF_FALSE operand, and sets that
      operand to the start of the else body, or to the end when there is no else. */
  lemma {:induction false} IfTailLaid(st: CState, s3: CState, n: Node, toElse: int)
    requires n.If? && Extends(st, s3) && |st.code| <= toElse < |s3.code|
    ensures var r := IfTail(st, s3, n, toElse);
      r.1.None? ==>
        (forall k :: 0 <= k < |s3.code| && k != toElse ==> r.0.code[k] == s3.code[k]) &&
        r.0.code[toElse] == (if HasElse(n.elseBody) then |s3.code| + 2 else |s3.code|) &&
        r.0.code[toElse] <= |r.0.code| &&
        WalkOk(r.0.code, |s3.code|, |r.0.code|, |r.0.code|)
    decreases n, 0
  {
    var r := IfTail(st, s3, n, toElse);
    var c3 := |s3.code|;
    if r.1.None? {
      if HasElse(n.elseBody) {
        var s4 := EmitCode(s3, JMP, Some(0));
        var s5 := Patch(s4, toElse, |s4.code|);
        SeqLaid(s5, n.elseBody.stmts);
        var s6 := CompileSeq(s5, n.elseBody.stmts).0;
        var t := Patch(s6, c3 + 1, |s6.code|);
        assert r.0 == t;
        ExtendsAgree(s5, s6);
        assert t.code[c3] == JMP && t.code[c3 + 1] == |t.code|;
        assert t.code[toElse] == c3 + 2;
        Carry(s6, t, c3 + 2, |s6.code|, |t.code|);
        WalkOne(t.code, c3, |t.code|);
        WalkAppend(t.code, c3, c3 + 2, |t.code|, |t.code|);
      } else {
        assert WalkOk(r.0.code, c3, c3, c3);
      }
    }
  }

  lemma {:induction false} IfLaid(st: CState, n: Node)
    requires n.If?
    ensures Laid(st, CompileNode(st, n))
    decreases n, 2
  {
    NodeLaid(st, n.cond);
    var (s1, e1) := CompileNode(st, n.cond);
    if e1.None? {
      var s2 := EmitCode(s1, JMP_IF_FALSE, Some(0));
      SeqLaid(s2, n.body);
      var (s3, e3) := CompileSeq(s2, n.body);
      if e3.None? {
        ExtendsTransitive(st, s2, s3);
        assert CompileNode(st, n) == IfTail(st, s3, n, |s1.code| + 1);
        IfRestLaid(st, s1, s2, s3, n);
      }
    }
  }

  /** An `if` whose condition and true body are well laid is well laid. */
  lemma {:induction false} IfRestLaid(st: CState, s1: CState, s2: CState, s3: CState, n: Node)
    requires n.If? && s2 == EmitCode(s1, JMP_IF_FALSE, Some(0))
    requires Extends(st, s1) && WalkOk(s1.code, |st.code|, |s1.code|, |s1.code|)
    requires Extends(s2, s3) && WalkOk(s3.code, |s2.code|, |s3.code|, |s3.code|)
    requires Extends(st, s3)
    ensures Laid(st, IfTail(st, s3, n, |s1.code| + 1))
    decreases n, 1
  {
    var r := IfTail(st, s3, n, |s1.code| + 1);
    IfTailLaid(st, s3, n, |s1.code| + 1);
    if r.1.None? {
      ExtendsTransitive(s1, s2, s3);
      ExtendsAgree(s1, s3);
      ExtendsAgree(s2, s3);
      BranchAssembled(st, s1, s3, r.0);
    }
  }

  /** Condition, the JMP_IF_FALSE with its patched operand, the true body and the
      rest of an `if` form one walk. */
  lemma BranchAssembled(st: CState, s1: CState, s3: CState, t: CState)
    requires |st.code| <= |s1.code| && |s1.code| + 2 <= |s3.code| <= |t.code|
    requires WalkOk(s1.code, |st.code|, |s1.code|, |s1.code|)
    requires WalkOk(s3.code, |s1.code| + 2, |s3.code|, |s3.code|)
    requires WalkOk(t.code, |s3.code|, |t.code|, |t.code|)
    requires forall k :: 0 <= k < |s1.code| ==> s3.code[k] == s1.code[k]
    requires forall k :: 0 <= k < |s3.code| && k != |s1.code| + 1 ==> t.code[k] == s3.code[k]
    requires s3.code[|s1.code|] == JMP_IF_FALSE && t.code[|s1.code| + 1] <= |t.code|
    requires 0 <= t.code[|s1.code| + 1]
    ensures WalkOk(t.code, |st.code|, |t.code|, |t.code|)
  {
    var c0, c1, c3 := |st.code|, |s1.code|, |s3.code|;
    Carry(s1, t, c0, c1, |t.code|);
    WalkOne(t.code, c1, |t.code|);
    Carry(s3, t, c1 + 2, c3, |t.code|);
    WalkAppend(t.code, c1 + 2, c3, |t.code|, |t.code|);
    WalkAppend(t.code, c1, c1 + 2, |t.code|, |t.code|);
    WalkAppend(t.code, c0, c1, |t.code|, |t.code|);
  }

  /** Every jump operand of a compiled program is an address inside the code: the
      program decodes into whole instructions, ends with HALT, and its jumps target
      at most the HALT itself. */
  lemma JumpsInBounds(body: seq<Node>)
    requires CompileNode(Initial, Program(body)).1.None?
    ensures var code := CompileNode(Initial, Program(body)).0.code;
      |code| > 0 && code[|code| - 1] == HALT && WalkOk(code, 0, |code|, |code| - 1)
  {
    var (s1, e1) := ProgramBody(Initial, body);
    BodyLaid(Initial, body);
    var code := CompileNode(Initial, Program(body)).0.code;
    assert code == s1.code + [HALT];
    Carry(s1, CompileNode(Initial, Program(body)).0, 0, |s1.code|, |s1.code|);
    WalkOne(code, |s1.code|, |code| - 1);
    WalkAppend(code, 0, |s1.code|, |code|, |code| - 1);
  }

  // ---------------------------------------------------------------------------
  // Where the jumps land

  /** `if`: the JMP_IF_FALSE after the condition is patched to the first word of the
      else body, just past the JMP that ends the true body, and that JMP to the end of
      the whole statement; without a (non-empty) else it is patched to the end. */
  lemma IfTargets(st: CState, n: Node)
    requires n.If? && CompileNode(st, n).1.None?
    ensures var t := CompileNode(st, n).0.code;
      var c1 := |CompileNode(st, n.cond).0.code|;
      var c3 := |CompileSeq(EmitCode(CompileNode(st, n.cond).0, JMP_IF_FALSE, Some(0)), n.body).0.code|;
      c1 + 2 <= c3 <= |t| && t[c1] == JMP_IF_FALSE &&
      (HasElse(n.elseBody) ==> c3 + 2 <= |t| && t[c1 + 1] == c3 + 2 && t[c3] == JMP && t[c3 + 1] == |t|) &&
      (!HasElse(n.elseBody) ==> t[c1 + 1] == c3 == |t|)
  {
    var s1 := CompileNode(st, n.cond).0;
    var s2 := EmitCode(s1, JMP_IF_FALSE, Some(0));
    var s3 := CompileSeq(s2, n.body).0;
    var c1 := |s1.code|;
    assert CompileNode(st, n) == IfTail(st, s3, n, c1 + 1);
    IfTailLaid(st, s3, n, c1 + 1);
    ExtendsAgree(s2, s3);
    if HasElse(n.elseBody) {
      var s4 := EmitCode(s3, JMP, Some(0));
      var s5 := Patch(s4, c1 + 1, |s4.code|);
      var s6 := CompileSeq(s5, n.elseBody.stmts).0;
      ExtendsAgree(s5, s6);
    }
  }

  /** `while`: the exit jump lands on the word right after the back jump, and the
      back jump returns to the first word of the condition. */
  lemma WhileTargets(st: CState, n: Node)
    requires n.While? && CompileNode(st, n).1.None?
    ensures var t := CompileNode(st, n).0.code;
      var c1 := |CompileNode(st, n.cond).0.code|;
      c1 + 4 <= |t| && t[c1] == JMP_IF_FALSE && t[c1 + 1] == |t| &&
      t[|t| - 2] == JMP && t[|t| - 1] == |st.code|
  {
    var s1 := CompileNode(st, n.cond).0;
    var s2 := EmitCode(s1, JMP_IF_FALSE, Some(0));
    var s3 := CompileSeq(s2, n.body).0;
    ExtendsAgree(s2, s3);
  }

  // ---------------------------------------------------------------------------
  // Calls, constants and errors

  /** A call to a name of `SYS_FUNCTIONS` becomes `SYS id argc` and touches no
      constant; any other name is loaded as a string constant and called with `CALL
      argc`. A program can therefore never shadow a syscall. */
  lemma CallLayout(st: CState, name: string, args: seq<Node>)
    requires PoolInv(st) && CompileNode(st, Call(name, args)).1.None?
    ensures var s1 := CompileSeq(st, args).0;
      var t := CompileNode(st, Call(name, args)).0;
      (name in SysFunctions ==>
        t.code == s1.code + [SYS, SysFunctions[name], |args|] && t.consts == s1.consts) &&
      (name !in SysFunctions ==>
        |t.code| == |s1.code| + 4 && t.code[..|s1.code|] == s1.code &&
        t.code[|s1.code|] == LOAD_CONST && t.code[|s1.code| + 2] == CALL &&
        t.code[|s1.code| + 3] == |args| &&
        0 <= t.code[|s1.code| + 1] < |t.consts| && t.consts[t.code[|s1.code| + 1]] == Str(name))
  {
    SeqKeepsPool(st, args);
  }

  /** Number, String and Var load through a pool index that holds their value (the
      variable's name, for Var). */
  lemma LeafLoads(st: CState, n: Node)
    requires PoolInv(st) && (n.Number? || n.String? || n.Var?)
    ensures var t := CompileNode(st, n).0;
      var v := if n.Number? then Float(n.num) else if n.String? then Str(n.text) else Str(n.name);
      CompileNode(st, n).1.None? && |t.code| == |st.code| + 2 && t.code[..|st.code|] == st.code &&
      t.code[|st.code|] == (if n.Var? then LOAD_VAR else LOAD_CONST) &&
      0 <= t.code[|st.code| + 1] < |t.consts| && t.consts[t.code[|st.code| + 1]] == v &&
      (v in st.consts <==> t.consts == st.consts)
  {
    var v := if n.Number? then Float(n.num) else if n.String? then Str(n.text) else Str(n.name);
    if v in st.consts {
      var i :| 0 <= i < |st.consts| && st.consts[i] == v;
      assert v in st.constMap;
    }
  }

  /** `return` with no value loads the None constant before RET. */
  lemma ReturnNothing(st: CState)
    requires PoolInv(st)
    ensures var t := CompileNode(st, Return(None)).0;
      CompileNode(st, Return(None)).1.None? && |t.code| == |st.code| + 3 &&
      t.code[|st.code|] == LOAD_CONST && t.consts[t.code[|st.code| + 1]] == NoneV &&
      t.code[|st.code| + 2] == RET
  {
  }

  /** `%` is not in the operator map: once both operands compile, the BinaryOp
      raises, although the VM has a MOD opcode. */
  lemma ModuloRejected(st: CState, left: Node, right: Node)
    requires CompileNode(st, left).1.None?
    requires CompileNode(CompileNode(st, left).0, right).1.None?
    ensures CompileNode(st, BinaryOp("%", left, right)).1 == Some(UnknownOperator("%"))
  {
    assert "%" !in BinaryOpcodes;
  }

  /** A unary operator other than `-` compiles to its operand's code alone. */
  lemma OtherUnaryIgnored(st: CState, op: string, value: Node)
    requires op != "-"
    ensures CompileNode(st, UnaryOp(op, value)) == CompileNode(st, value)
  {
  }

  /** There is no visitor for FuncDecl: a program with a `function` declaration
      among its top-level statements never compiles. */
  lemma {:induction false} FunctionsRejected(st: CState, body: seq<Node>, i: int)
    requires 0 <= i < |body| && body[i].FuncDecl?
    ensures ProgramBody(st, body).1.Some?
    decreases |body|
  {
    var p := body[..|body| - 1];
    if i < |body| - 1 {
      assert p[i] == body[i];
      FunctionsRejected(st, p, i);
    }
  }

  lemma ProgramWithFunctionRejected(body: seq<Node>, i: int)
    requires 0 <= i < |body| && body[i].FuncDecl?
    ensures CompileNode(Initial, Program(body)).1.Some?
  {
    FunctionsRejected(Initial, body, i);
  }
}
