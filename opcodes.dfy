/** The instruction set of VM/Opcodes.py: opcode numbers, the mnemonic table
    `OP_NAMES`, the syscall table `SYS_FUNCTIONS`, and how many inline operand words
    follow each opcode in the code list. */
module Opcodes {
  const HALT: int := 0
  const LOAD_CONST: int := 1
  const LOAD_VAR: int := 2
  const STORE_VAR: int := 3
  const POP: int := 4
  const ADD: int := 10
  const SUB: int := 11
  const MUL: int := 12
  const DIV: int := 13
  const NEG: int := 14
  const MOD: int := 15
  const EQ: int := 20
  const NEQ: int := 21
  const LT: int := 22
  const LTE: int := 23
  const GT: int := 24
  const GTE: int := 25
  const JMP: int := 30
  const JMP_IF_FALSE: int := 31
  const CALL: int := 40
  const RET: int := 41
  const SYS: int := 42

  /** The module's upper-case integer constants in definition order, as
      (mnemonic, number) pairs; `SYS_FUNCTIONS` is a dictionary and is not among them. */
  const OpTable: seq<(string, int)> := [
    ("HALT", HALT), ("LOAD_CONST", LOAD_CONST), ("LOAD_VAR", LOAD_VAR), ("STORE_VAR", STORE_VAR),
    ("POP", POP), ("ADD", ADD), ("SUB", SUB), ("MUL", MUL), ("DIV", DIV), ("NEG", NEG), ("MOD", MOD),
    ("EQ", EQ), ("NEQ", NEQ), ("LT", LT), ("LTE", LTE), ("GT", GT), ("GTE", GTE),
    ("JMP", JMP), ("JMP_IF_FALSE", JMP_IF_FALSE), ("CALL", CALL), ("RET", RET), ("SYS", SYS)
  ]

  /** The dictionary comprehension `{v: k for k, v in ...}`: entries are inserted in
      order, a later entry overwriting an earlier one with the same number. */
  function InvertTable(t: seq<(string, int)>): map<int, string>
  {
    if t == [] then map[] else InvertTable(t[..|t| - 1])[t[|t| - 1].1 := t[|t| - 1].0]
  }

  /** `OP_NAMES`: opcode number to mnemonic. */
  function OpNames(): map<int, string>
  {
    InvertTable(OpTable)
  }

  predicate DistinctNumbers(t: seq<(string, int)>)
  {
    forall i, j :: 0 <= i < j < |t| ==> t[i].1 != t[j].1
  }

  /** All opcode numbers are pairwise distinct. */
  lemma OpcodesDistinct()
    ensures DistinctNumbers(OpTable)
  {
    forall i, j | 0 <= i < j < |OpTable| ensures OpTable[i].1 != OpTable[j].1 {
      assert OpTable[i].1 < OpTable[j].1;
    }
  }

  /** The numbers of a table. */
  function Numbers(t: seq<(string, int)>): set<int>
  {
    if t == [] then {} else Numbers(t[..|t| - 1]) + {t[|t| - 1].1}
  }

  /** With distinct numbers the comprehension is an exact inverse: its keys are the
      table's numbers, and every number maps to its own mnemonic. */
  lemma {:induction false} InvertTableInverse(t: seq<(string, int)>)
    requires DistinctNumbers(t)
    ensures InvertTable(t).Keys == Numbers(t)
    ensures forall i :: 0 <= i < |t| ==> t[i].1 in InvertTable(t) && InvertTable(t)[t[i].1] == t[i].0
  {
    if t != [] {
      var p := t[..|t| - 1];
      assert DistinctNumbers(p);
      InvertTableInverse(p);
      forall i | 0 <= i < |t| - 1 ensures t[i].1 in InvertTable(t) && InvertTable(t)[t[i].1] == t[i].0 {
        assert p[i] == t[i];
        assert t[i].1 != t[|t| - 1].1;
      }
    }
  }

  predicate IsOpcode(x: int)
  {
    x in {HALT, LOAD_CONST, LOAD_VAR, STORE_VAR, POP, ADD, SUB, MUL, DIV, NEG, MOD,
          EQ, NEQ, LT, LTE, GT, GTE, JMP, JMP_IF_FALSE, CALL, RET, SYS}
  }

  /** `OP_NAMES` maps exactly the opcode numbers, each to its own name. */
  lemma OpNamesInverse()
    ensures OpNames().Keys == Numbers(OpTable)
    ensures forall i :: 0 <= i < |OpTable| ==> OpTable[i].1 in OpNames() && OpNames()[OpTable[i].1] == OpTable[i].0
  {
    OpcodesDistinct();
    InvertTableInverse(OpTable);
  }

  /** The inline operand words after each opcode: one index, address or argument count,
      two for SYS (syscall id and argument count), none for the rest. */
  function OperandCount(op: int): (n: nat)
    ensures n <= 2
    ensures n == 2 <==> op == SYS
    ensures n == 1 <==> op in {LOAD_CONST, LOAD_VAR, STORE_VAR, JMP, JMP_IF_FALSE, CALL}
  {
    if op == SYS then 2
    else if op in {LOAD_CONST, LOAD_VAR, STORE_VAR, JMP, JMP_IF_FALSE, CALL} then 1
    else 0
  }

  predicate IsJump(op: int) { op == JMP || op == JMP_IF_FALSE }

  /** `SYS_FUNCTIONS`: the built-in names the compiler turns into SYS instructions. */
  const SysFunctions: map<string, int> :=
    map["pset" := 0, "sfx" := 1, "spr" := 2, "map" := 3, "btn" := 4, "cls" := 5, "print" := 6, "log" := 7]

  /** Eight names, with the distinct ids 0 to 7. */
  lemma SysFunctionIds()
    ensures SysFunctions.Keys == {"pset", "sfx", "spr", "map", "btn", "cls", "print", "log"}
    ensures SysFunctions.Values == {0, 1, 2, 3, 4, 5, 6, 7}
    ensures forall a, b :: a in SysFunctions && b in SysFunctions && SysFunctions[a] == SysFunctions[b] ==> a == b
  {
    assert SysFunctions.Values == {0, 1, 2, 3, 4, 5, 6, 7} by {
      forall v | v in {0, 1, 2, 3, 4, 5, 6, 7} ensures v in SysFunctions.Values {
        var names := ["pset", "sfx", "spr", "map", "btn", "cls", "print", "log"];
        assert SysFunctions[names[v]] == v;
      }
    }
  }
}
