# SparkLang toolchain and the code editor's buffer logic, in Dafny

SparkFantasyConsole is a fantasy console that runs programs written in a small
Lua-like language. This project models its core:

- the lexer (`VM/Lexer.py`): a regular-expression alternation scanned left to
  right, with keywords, string unescaping, line numbers and a final EOF token;
- the recursive-descent parser (`VM/Parser.py`): statements, blocks,
  `if`/`else`, `while`, `function`, `return`, and four binary precedence levels
  above a unary minus;
- the AST (`VM/Data.py`) and the opcode table (`VM/Opcodes.py`);
- the single-pass compiler to bytecode (`VM/Compiler.py`): a constant pool with
  de-duplication, and back-patched jumps for `if` and `while`;
- the stack machine (`VM/VirtualMachine.py`): Python's value semantics for the
  operators, CALL/RET through a call stack, SYS calls into an optional hardware
  host, time slices of `max_cycles`, and `call_function`;
- the text-buffer logic of the editor (`Tools/CodeEditor.py`): undo history,
  selection ordering and deletion, the call-context scan behind the argument
  hints, indentation, and the theme cycle.

Values are modelled as a datatype `Float | Int | Bool | Str | NoneV` with
Python's rules: `bool` is an `int`, `1 == 1.0 == True`, `str * int` repeats,
`/` is true division, `%` is floored, and `<` on strings compares code points.
The exceptions the core raises on the inputs it can receive are values. That covers a
`SyntaxError`/`IndexError` from the parser, a `NotImplementedError`/`SyntaxError`
from the compiler, from the machine a `TypeError`, an `IndexError`, a pop
from an empty list, an `AttributeError` from a host without `spr`, or
"Opcode desconocido", and from the editor the `IndexError` that
`delete_selection` raises when the selection anchor names a row that an undo
or redo removed. Two sources of exceptions are not modelled (see "Left out"):
`float()` on NUMBER texts the lexer never produces, and the host's own `pset`. Where Python would leave the state half-updated at the
raise point, the model keeps exactly that half-updated state.

Code that changes state step by step is imperative Dafny:
- `Compiler.Compiler`, `Machine.SparkVM` and `Editor.CodeEditor` are classes
  whose methods update their fields.
- Each method is proved to produce the state that a function over a datatype
  snapshot computes (`CompileNode`, `Exec`/`Run`/`CallLoop`, `WithHistory`,
  `Undone`, `SelectionDeleted`, …).
- The lexer's `finditer` loop is the method `Lexer.Lex`. It is proved equal to
  `TokenStream`.
- The editor's scanning loops are methods with loop invariants.

The parser is pure: each parse function takes the remaining token suffix and
returns the node and the rest. Its cursor `self.i` is `|tokens| - |rest|`.
A printer (`Unparser`) is the parser's partner: it is proved to be a right
inverse of the parser on every printable program.

Behaviour that follows the code, stated as it is written:
- ADD on a string and a number is a `TypeError`; it does not stringify.
- DIV and MOD by a zero operand push the integer `0` and do not fault.
- A raised exception leaves the machine mid-instruction. No fault record is kept.
- `reset()` clears `ip`, the stack, `halted` and the cycle counter. It keeps
  the globals and the call stack.
- SYS does not check argument types. Only `btn` converts (`int(args[0])`).
- The compiler has no visitor for `FuncDecl`, so any program that declares a
  function fails to compile. It also has no mapping for `%`.
- The modelled edit (`delete_selection`), like the typing and paste paths,
  calls `save_history()` before it edits. So `undo()` right after such an edit
  restores the snapshot taken before the previous edit, and `redo()` then
  gives back the buffer as it was just before the edit (`UndoAfterSave`,
  `DeleteSelectionUndo`). Accepting an autocomplete suggestion saves after
  its edit instead, and `load_code` does not save at all.

## Model

| member | source | states |
|---|---|---|
| `Lexer.RunEnd` | VM/Lexer.py:9-14 | the end of the longest run of characters satisfying the class from `i`: every character before it satisfies it and the one at the end does not |
| `Lexer.StringEnd` | VM/Lexer.py:12 | when a closing quote is found, the match ends just after a `"` past the opening one |
| `Lexer.OpEnd` | VM/Lexer.py:15 | the OP alternative matches a lexeme from the operator set, two-character forms first |
| `Lexer.NumberEnd` | VM/Lexer.py:13 | `\d+(\.\d+)?` matches a non-empty number lexeme starting at a digit |
| `Lexer.MatchAt` | VM/Lexer.py:8-22 | the first alternative of TOKEN_SPEC that matches at `i` always consumes at least one character; NEWLINE exactly for `\n`; IDENT, NUMBER and OP lexemes have their shapes; single-character rules consume one character |
| `Lexer.StepAt` | VM/Lexer.py:29-48 | one match emits at most one token and advances the position |
| `Lexer.Lex` | VM/Lexer.py:25-50 | the `finditer` loop produces exactly the token list `TokenStream` specifies |
| `Lexer.MatchTokens` | VM/Lexer.py:30-48 | one loop iteration: the tokens emitted and the new line and line start are those of `StepAt` |
| `Lexer.NewlineCountAppend` | VM/Lexer.py:33-36 | NEWLINE tokens of a concatenation add up, so the line counter advances once per NEWLINE |
| `Lexer.StepTokensWellFormed` | VM/Lexer.py:32-48 | each emitted token is well formed and not EOF; the line number grows by the number of NEWLINE tokens emitted |
| `Lexer.TokenizeShape` | VM/Lexer.py:29-50 | the stream is non-empty, ends with exactly one EOF token carrying the final line and column 1, and every token is well formed (kind, text and line at least 1, column at least 1) |
| `Lexer.TokenPositions` | VM/Lexer.py:29-48 | each token before EOF starts at an increasing offset of the source; it is a NEWLINE exactly when that offset holds `\n`; its line is the starting line plus the NEWLINE tokens before it; its column is its offset minus the end of the last NEWLINE before it, plus 1 |
| `Lexer.TokenStreamShape` | VM/Lexer.py:25-50 | for a whole source, from line 1 and offset 0: the shape of `TokenizeShape` and the line and column of every token as `TokenPositions` states them |
| `Lexer.KeywordIffReserved` | VM/Lexer.py:40-42 | an identifier-like token is a KEYWORD exactly when its text is one of the eight keywords |
| `Lexer.CommentWins` | VM/Lexer.py:38-39 | `--` starts a comment up to the newline, and it produces no token |
| `Lexer.CommentExample` | VM/Lexer.py:38-39 | `a--b` lexes to the identifier `a` and EOF |
| `Lexer.TwoCharOperators` | VM/Lexer.py:15 | `==`, `~=`, `<=`, `>=` and the compound assignment forms lex as one two-character OP |
| `Lexer.LoneTildeUnknown` | VM/Lexer.py:15-20 | a `~` not followed by `=` is an UNKNOWN token of one character |
| `Lexer.UnterminatedQuoteUnknown` | VM/Lexer.py:12-20 | a quote with no closing quote is an UNKNOWN token of one character |
| `Lexer.ReplaceAbsent` | VM/Lexer.py:45 | `str.replace` leaves a string unchanged when the pattern cannot occur in it |
| `Lexer.ReplaceWithoutLead` | VM/Lexer.py:45 | the same when the pattern's first character does not occur |
| `Lexer.ReplaceShortens` | VM/Lexer.py:45 | replacing two characters by one never lengthens a string, and the length stays the same exactly when nothing was replaced |
| `Lexer.UnescapeShortens` | VM/Lexer.py:44-45 | for every string literal, the unescaped text is no longer than the text between the quotes, and equals it when that text holds no backslash |
| `Lexer.UnescapeQuote` | VM/Lexer.py:45 | `\"` becomes `"` |
| `Lexer.UnescapeBackslash` | VM/Lexer.py:45 | `\\` becomes `\` |
| `Lexer.UnescapeNewline` | VM/Lexer.py:45 | `\n` becomes a newline |
| `Lexer.UnescapeOtherLiteral` | VM/Lexer.py:45 | other escapes such as `\t` stay as two characters |
| `Lexer.UnescapeSequential` | VM/Lexer.py:45 | the three replacements run in sequence, so `\\n` becomes a newline, not `\` plus `n` |
| `Parser.Pow10` | VM/Parser.py:211 | the scale of a decimal fraction is positive |
| `Parser.DotIndex` | VM/Parser.py:211 | the position of the first `.` in a number lexeme, or its length when there is none |
| `Parser.NumberLexemeConverts` | VM/Parser.py:209-211 | `float()` never fails on a lexed NUMBER |
| `Parser.Peek` | VM/Parser.py:11-12 | the first token, or the IndexError when no tokens remain |
| `Parser.Next` | VM/Parser.py:14-17 | the first token, and the cursor moves past exactly that token |
| `Parser.Expect` | VM/Parser.py:19-24 | succeeds exactly when the kind matches or the given value matches; on failure a SyntaxError naming the token, or an IndexError past the end |
| `Parser.SkipNewlines` | VM/Parser.py:26-28 | drops exactly the leading NEWLINE tokens and stops at the first other token; a list of only NEWLINE tokens runs out of tokens |
| `Parser.ParseExpression` | VM/Parser.py:147-148 | a successful parse consumes at least one token |
| `Parser.ParseLevel` | VM/Parser.py:150-190 | each binary level consumes at least one token when it succeeds |
| `Parser.LevelLoop` | VM/Parser.py:152-155 | the left-associative loop of a level never grows the rest |
| `Parser.ParseFactor` | VM/Parser.py:192-197 | a unary minus or a primary consumes at least one token |
| `Parser.ParsePrimary` | VM/Parser.py:206-231 | numbers, strings, variables, calls and parenthesised expressions consume at least one token |
| `Parser.ParseCallSuffix` | VM/Parser.py:233-242 | a call's argument list consumes at least its parentheses |
| `Parser.ArgsLoop` | VM/Parser.py:238-240 | the comma loop only appends arguments, and stops at a token that is not a comma |
| `Parser.ParseStatement` | VM/Parser.py:40-71 | an identifier followed by `(` is a call of that name and followed by `=` is an assignment to it; anything else after an identifier, or a statement that starts with neither an identifier nor a statement keyword, is the SyntaxError at that token |
| `Parser.ParseReturn` | VM/Parser.py:73-80 | `return` carries no value exactly when NEWLINE, EOF, `end` or `else` follows it |
| `Parser.ParseParams` | VM/Parser.py:86-91 | parameter parsing never grows the rest |
| `Parser.ParamsLoop` | VM/Parser.py:89-91 | the comma loop only appends names, and stops at a token that is not a comma |
| `Parser.ParseBlock` | VM/Parser.py:94-98 | a block only appends statements to those already read |
| `Parser.BlockStopsAtTerminator` | VM/Parser.py:96-124 | a block that parses stops exactly at `end`, or also at `else` for the true branch of `if` |
| `Parser.ParseFunction` | VM/Parser.py:82-100 | a function declaration consumes at least one token |
| `Parser.ParseIf` | VM/Parser.py:102-130 | yields an If node, and an empty else block is recorded as none; the `:` or `then` after the condition is optional (`Unparser.IfRoundTrip`) |
| `Parser.ParseWhile` | VM/Parser.py:132-143 | yields a While node and consumes at least one token; the `do` after the condition is optional (`Unparser.WhileRoundTrip`) |
| `Parser.Parse` | VM/Parser.py:30-38 | a successful parse yields a Program; no NEWLINE is needed between two statements (`Unparser.AssignmentNeedsNoNewline`) |
| `Parser.ExpressionStart` | VM/Parser.py:206-231 | an expression that does not start with a number, string, identifier, `(` or `-` is the SyntaxError at that token, at every level |
| `Parser.TrailingCommaInParameters` | VM/Parser.py:89-92 | `f(a,)` in a declaration is rejected at the `)` |
| `Unparser.LevelOf` | VM/Parser.py:150-190 | each binary operator belongs to exactly one precedence level |
| `Unparser.NatToStringDigits` | VM/Lexer.py:13 | a printed natural number is a non-empty digit string of that value |
| `Unparser.NatToStringFloat` | VM/Parser.py:211 | `float()` of a printed natural number gives that number back |
| `Unparser.ExprFirst` | VM/Parser.py:206-231 | every printed expression starts with a token that can start an expression |
| `Unparser.ArgTailRoundTrip` | VM/Parser.py:238-240 | parsing printed `, arg` pairs appends exactly those arguments |
| `Unparser.ArgListRoundTrip` | VM/Parser.py:236-240 | a printed non-empty argument list parses back to its first argument and then its others |
| `Unparser.CallSuffixRoundTrip` | VM/Parser.py:233-242 | a printed call suffix parses back to the same call |
| `Unparser.LevelRoundTrip` | VM/Parser.py:150-190 | a printed operand at level `k` parses back and hands over to the operator loop of that level |
| `Unparser.BinaryRoundTrip` | VM/Parser.py:150-190 | the same, for a binary node of that level, so that left operands associate to the left |
| `Unparser.FullRoundTrip` | VM/Parser.py:150-190 | an expression printed at level `k` parses back to itself when the next token ends that level |
| `Unparser.FactorRoundTrip` | VM/Parser.py:192-231 | a printed factor, parenthesised when needed, parses back to itself |
| `Unparser.ExpressionRoundTrip` | VM/Parser.py:147-242 | `parse_expression` is a left inverse of the printer on every printable expression (number literals are whole numbers here) |
| `Unparser.StmtFirst` | VM/Parser.py:40-71 | every printed statement starts with an identifier or a statement keyword |
| `Unparser.SkipOneNewline` | VM/Parser.py:26-28 | `skip_newlines` removes one NEWLINE in front of a token that is not one |
| `Unparser.BlockFirst` | VM/Parser.py:94-98 | a printed block followed by a terminator does not start with a NEWLINE |
| `Unparser.SkipAfterStatement` | VM/Parser.py:97-98 | the NEWLINE after each statement is exactly what `skip_newlines` consumes |
| `Unparser.ParamTailRoundTrip` | VM/Parser.py:89-91 | printed `, name` pairs parse back to those parameters |
| `Unparser.ParamsRoundTrip` | VM/Parser.py:86-92 | a printed parameter list parses back to itself |
| `Unparser.WhileStep` | VM/Parser.py:132-143 | `while c`, an optional `do`, any newlines, a block and `end` parse to the While node of its parts |
| `Unparser.IfStep` | VM/Parser.py:102-130 | `if c`, an optional `:` or `then`, any newlines, a block, then `end` or `else` block `end`, parse to the If node of its parts |
| `Unparser.FunctionStep` | VM/Parser.py:82-100 | `function name(params)` block `end` parses to the FuncDecl of its parts |
| `Unparser.BlockStep` | VM/Parser.py:96-98 | a block reads one statement and its newline, then the rest of the block |
| `Unparser.ProgramStep` | VM/Parser.py:32-37 | the program loop reads one statement, then any number of newlines (none required), then the rest |
| `Unparser.StmtRoundTrip` | VM/Parser.py:40-143 | every printable statement parses back to itself |
| `Unparser.AssignRoundTrip` | VM/Parser.py:63-67 | a printed assignment parses back to itself in front of any token that ends an expression, a NEWLINE or not |
| `Unparser.CallRoundTrip` | VM/Parser.py:59-61 | a printed call statement parses back to itself |
| `Unparser.ReturnRoundTrip` | VM/Parser.py:73-80 | a printed `return`, with or without a value, parses back to itself |
| `Unparser.IfRoundTrip` | VM/Parser.py:102-130 | a printed `if` with or without `else` parses back to itself, whether the condition is followed by `then`, by `:` or by nothing, and by any number of newlines |
| `Unparser.IfGap` | VM/Parser.py:105-112 | after the condition of an `if`, one optional `:` or `then` and then every newline are skipped, up to the block |
| `Unparser.ElseRoundTrip` | VM/Parser.py:119-130 | a printed else part leads to `end` or to an `else` block that parses back to its statements |
| `Unparser.WhileRoundTrip` | VM/Parser.py:132-143 | a printed `while` parses back to itself, with or without `do` after the condition and with any number of newlines |
| `Unparser.WhileGap` | VM/Parser.py:135-137 | after the condition of a `while`, one optional `do` and then every newline are skipped, up to the block |
| `Unparser.AssignmentNeedsNoNewline` | VM/Parser.py:30-38 | an assignment followed directly by another statement, with no NEWLINE between them, parses to a program of both |
| `Unparser.FunctionRoundTrip` | VM/Parser.py:82-100 | a printed function declaration parses back to itself |
| `Unparser.BlockRoundTrip` | VM/Parser.py:94-99 | a printed block parses back to its statements and stops at its terminator |
| `Unparser.ProgramLoopRoundTrip` | VM/Parser.py:30-38 | the program loop reads back every printed statement up to EOF |
| `Unparser.ProgramRoundTrip` | VM/Parser.py:30-38 | `parse` is a left inverse of the printer on every printable program (number literals are whole numbers here) |
| `Unparser.VarTokens` | VM/Parser.py:217-223 | a variable prints as one identifier at every level |
| `Unparser.BinaryTokens` | VM/Parser.py:150-190 | a binary node prints its left operand at its own level and its right operand one level tighter |
| `Unparser.SubtractionLeftAssociative` | VM/Parser.py:175-181 | `a - b - c` parses as `(a - b) - c` |
| `Unparser.MultiplicationBindsTighter` | VM/Parser.py:175-190 | `a + b * c` parses as `a + (b * c)` |
| `Unparser.UnaryMinusBindsTighter` | VM/Parser.py:184-197 | `-a * b` parses as `(-a) * b` |
| `Unparser.RelationalBindsTighterThanEquality` | VM/Parser.py:150-164 | `a < b == c` parses as `(a < b) == c` |
| `Unparser.TrailingCommaRejected` | VM/Parser.py:236-241 | a call with a trailing comma is rejected at the `)` |
| `Opcodes.OpcodesDistinct` | VM/Opcodes.py:3-28 | the twenty-two opcode numbers are pairwise distinct |
| `Opcodes.InvertTableInverse` | VM/Opcodes.py:30 | inverting a name table with distinct numbers maps each number back to its own name and has no other keys |
| `Opcodes.OpNamesInverse` | VM/Opcodes.py:30 | OP_NAMES maps exactly the opcode numbers, each to its own name |
| `Opcodes.OperandCount` | VM/Opcodes.py:4-28 | SYS takes two inline operands; LOAD_CONST, LOAD_VAR, STORE_VAR, JMP, JMP_IF_FALSE and CALL take one; the rest none |
| `Opcodes.SysFunctionIds` | VM/Opcodes.py:32-41 | eight built-in names with the distinct ids 0 to 7 |
| `Values.Repeat` | VM/VirtualMachine.py:77-80 | `str * n` has length `|s| * n`, and 0 when `n <= 0` |
| `Values.KeyOfMatchesEqual` | VM/VirtualMachine.py:55-63 | two values address the same dictionary entry exactly when Python's `==` holds between them |
| `Values.FloorModSpec` | VM/VirtualMachine.py:91 | integer `%` is floored: the remainder has the divisor's sign and is smaller in magnitude |
| `Values.RealFloorModSpec` | VM/VirtualMachine.py:91 | float `%` is floored in the same way |
| `Values.IntOfFloatTruncates` | VM/VirtualMachine.py:178 | `int()` of a float truncates toward zero |
| `Values.IntOfIgnoresBlanks` | VM/VirtualMachine.py:178 | `int()` of a string reads the same with any whitespace added around it |
| `Values.BlankPaddedButton` | VM/VirtualMachine.py:178 | so `btn(" 1")` asks the host for button 1 |
| `Values.IntOfSeparator` | VM/VirtualMachine.py:178 | one `_` between two digit runs is skipped: the value is that of the digits alone |
| `Values.IntOfDoubleSeparator` | VM/VirtualMachine.py:178 | two `_` in a row make `int()` raise ValueError |
| `Values.SkipSeparator` | VM/VirtualMachine.py:178 | an `_` inside a digit run does not change its value |
| `Values.StrLessTrichotomy` | VM/VirtualMachine.py:105 | string `<` is a strict total order: irreflexive, asymmetric and total |
| `Values.StrLessTransitive` | VM/VirtualMachine.py:105 | string `<` is transitive |
| `Values.ComparisonTrichotomy` | VM/VirtualMachine.py:94-117 | on two numbers or two strings, `<` and `<=` are defined, `<=` is `<` or `==`, and exactly one of `a < b`, `a == b`, `b < a` holds |
| `Compiler.EmitCode` | VM/Compiler.py:11-15 | appends the opcode and, when given, the operand, and leaves everything before them and the pool unchanged |
| `Compiler.PoolAdd` | VM/Compiler.py:17-24 | returns the existing index of a known value; otherwise appends the value and returns its new index; keeps the pool and its map in agreement |
| `Compiler.Patch` | VM/Compiler.py:108-118 | overwrites exactly one code cell |
| `Compiler.CompileNode` | VM/Compiler.py:26-163 | compiling a node only appends code and constants |
| `Compiler.CompileSeq` | VM/Compiler.py:132-133 | compiling a statement list only appends |
| `Compiler.SeqStopsAtError` | VM/Compiler.py:132-133 | after the first raising statement nothing else is compiled |
| `Compiler.ProgramBody` | VM/Compiler.py:38-42 | the program loop only appends |
| `Compiler.BodyStopsAtError` | VM/Compiler.py:38-42 | the program loop stops at the first raising statement |
| `Compiler.ProgramCode` | VM/Compiler.py:37-43 | a program compiles by appending |
| `Compiler.IfCode` | VM/Compiler.py:82-118 | an `if` compiles by appending and patching inside its own code |
| `Compiler.IfTail` | VM/Compiler.py:101-118 | the else part, or the single patch when there is none, only appends and patches inside its own code |
| `Compiler.ExtendsTransitive` | VM/Compiler.py:11-24 | appending twice is appending |
| `Compiler.PatchExtends` | VM/Compiler.py:108-118 | patching a cell of the newly emitted code still extends the code before it |
| `Compiler.WhileCode` | VM/Compiler.py:120-139 | a `while` compiles by appending and patching inside its own code |
| `Compiler.CallCode` | VM/Compiler.py:148-163 | a call compiles by appending |
| `Compiler.Compiler.constructor` | VM/Compiler.py:6-9 | starts with empty code, an empty pool and an empty map |
| `Compiler.Compiler.Emit` | VM/Compiler.py:11-15 | the new state is the one `EmitCode` describes |
| `Compiler.Compiler.AddConst` | VM/Compiler.py:17-24 | the new state and the index are those `PoolAdd` describes |
| `Compiler.Compiler.Compile` | VM/Compiler.py:26-30 | dispatch on the node's class: the new state and the exception are those `CompileNode` describes |
| `Compiler.Compiler.NoVisit` | VM/Compiler.py:32-33 | a node without a visitor raises NotImplementedError |
| `Compiler.Compiler.CompileAll` | VM/Compiler.py:132-133 | the compile loop over a statement list ends in the state `CompileSeq` describes |
| `Compiler.Compiler.CompileProgram` | VM/Compiler.py:37-43 | each statement is compiled, then POP after expression statements, then HALT, as `CompileNode` describes |
| `Compiler.Compiler.CompileNumber` | VM/Compiler.py:45-47 | LOAD_CONST of the number's pool index |
| `Compiler.Compiler.CompileString` | VM/Compiler.py:49-51 | LOAD_CONST of the string's pool index |
| `Compiler.Compiler.CompileVar` | VM/Compiler.py:53-55 | LOAD_VAR of the name's pool index |
| `Compiler.Compiler.CompileAssign` | VM/Compiler.py:57-60 | the value's code, then STORE_VAR of the name's pool index |
| `Compiler.Compiler.CompileBinaryOp` | VM/Compiler.py:62-73 | both operands, then the mapped opcode, or a SyntaxError for an unmapped operator |
| `Compiler.Compiler.CompileUnaryOp` | VM/Compiler.py:75-78 | the operand, then NEG only for `-` |
| `Compiler.Compiler.CompileIf` | VM/Compiler.py:82-118 | condition, JMP_IF_FALSE, body, then either JMP and the else body, or nothing, with both jumps patched |
| `Compiler.Compiler.CompileWhile` | VM/Compiler.py:120-139 | condition, JMP_IF_FALSE, body, JMP back to the start, exit jump patched |
| `Compiler.Compiler.CompileReturn` | VM/Compiler.py:141-146 | the value, or LOAD_CONST of None, then RET |
| `Compiler.Compiler.CompileCall` | VM/Compiler.py:148-163 | arguments, then SYS id argc for a built-in, else LOAD_CONST name and CALL argc |
| `CompilerProofs.PoolDistinct` | VM/Compiler.py:17-24 | a pool built by `add_const` holds no value twice |
| `CompilerProofs.NodeKeepsPool` | VM/Compiler.py:26-163 | compiling any node keeps the pool and its map in agreement |
| `CompilerProofs.IfKeepsPool` | VM/Compiler.py:82-118 | the same for `if` |
| `CompilerProofs.SeqKeepsPool` | VM/Compiler.py:132-133 | the same for a statement list |
| `CompilerProofs.BodyKeepsPool` | VM/Compiler.py:38-42 | the same for a program body |
| `CompilerProofs.CompiledPoolDistinct` | VM/Compiler.py:17-24 | every compiled program's constant pool is duplicate-free and indexed by its map |
| `CompilerProofs.WalkOne` | VM/Opcodes.py:4-28 | one instruction with its operands and an in-range jump target is a well-laid instruction |
| `CompilerProofs.NodeLaid` | VM/Compiler.py:26-163 | the code a node appends decodes instruction by instruction and its jump targets stay within the code |
| `CompilerProofs.LeafLaid` | VM/Compiler.py:45-60 | LOAD_CONST, LOAD_VAR and STORE_VAR with a pool index are well laid |
| `CompilerProofs.ZeroOperandLaid` | VM/Compiler.py:42-43 | appending an instruction without operands keeps the code well laid |
| `CompilerProofs.SeqLaid` | VM/Compiler.py:132-133 | a statement list's code is well laid |
| `CompilerProofs.BodyLaid` | VM/Compiler.py:38-42 | a program body's code is well laid |
| `CompilerProofs.ProgramLaid` | VM/Compiler.py:37-43 | a program's code is well laid |
| `CompilerProofs.CallLaid` | VM/Compiler.py:148-163 | a call's code is well laid |
| `CompilerProofs.WhileLaid` | VM/Compiler.py:120-139 | a loop's code is well laid |
| `CompilerProofs.LoopAssembled` | VM/Compiler.py:128-139 | JMP_IF_FALSE to the end plus JMP back to the start around well-laid parts is well laid |
| `CompilerProofs.IfTailLaid` | VM/Compiler.py:101-118 | the else part patches the first jump to the else start (or the end) and keeps the code well laid |
| `CompilerProofs.IfLaid` | VM/Compiler.py:82-118 | an `if`'s code is well laid |
| `CompilerProofs.BranchAssembled` | VM/Compiler.py:95-118 | the patched JMP_IF_FALSE around well-laid parts is well laid |
| `CompilerProofs.JumpsInBounds` | VM/Compiler.py:37-43 | a compiled program ends with HALT, and every jump target lies within its code |
| `CompilerProofs.IfTargets` | VM/Compiler.py:92-118 | JMP_IF_FALSE goes to just after the true branch's JMP when there is an else, else to the end; the JMP goes to the end |
| `CompilerProofs.WhileTargets` | VM/Compiler.py:120-139 | JMP_IF_FALSE goes to the end and the final JMP goes back to the loop start |
| `CompilerProofs.CallLayout` | VM/Compiler.py:148-163 | a built-in call ends with SYS id argc and adds nothing to the pool; any other call ends with LOAD_CONST of its name and CALL argc |
| `CompilerProofs.LeafLoads` | VM/Compiler.py:45-55 | numbers and strings load their value, variables their name, through a pool index holding it; the pool grows only for a new value |
| `CompilerProofs.ReturnNothing` | VM/Compiler.py:141-146 | a bare `return` loads None from the pool and returns |
| `CompilerProofs.ModuloRejected` | VM/Compiler.py:66-73 | `%` has no opcode in the operator map and raises |
| `CompilerProofs.OtherUnaryIgnored` | VM/Compiler.py:75-78 | a unary operator other than `-` compiles as its operand alone |
| `CompilerProofs.FunctionsRejected` | VM/Compiler.py:29-33 | a body that contains a function declaration fails to compile |
| `CompilerProofs.ProgramWithFunctionRejected` | VM/Compiler.py:29-43 | so does the whole program |
| `Machine.PyIndex` | VM/VirtualMachine.py:49-61 | Python list indexing: defined exactly for `-n <= i < n`, negative indices counting from the end |
| `Machine.Exec` | VM/VirtualMachine.py:42-205 | no instruction changes the cycle counter, and none but STORE_VAR changes the globals |
| `Machine.ExecData` | VM/VirtualMachine.py:46-66 | the data instructions leave the cycle counter alone, and only STORE_VAR among them writes the globals |
| `Machine.ExecBinary` | VM/VirtualMachine.py:69-117 | the same for the binary instructions, which also leave the globals alone |
| `Machine.ExecNeg` | VM/VirtualMachine.py:85-87 | the same for NEG, which also leaves the globals alone |
| `Machine.ExecJump` | VM/VirtualMachine.py:120-131 | the same for the jumps, which also leave the globals alone |
| `Machine.Dropped` | VM/VirtualMachine.py:150-152 | a failed CALL drops at most the whole stack |
| `Machine.ExecCall` | VM/VirtualMachine.py:137-152 | the same for CALL, which also leaves the globals alone |
| `Machine.ExecSys` | VM/VirtualMachine.py:154-191 | the same for SYS, which also leaves the globals alone |
| `Machine.SysCall` | VM/VirtualMachine.py:165-191 | the same for the host call |
| `Machine.ExecRet` | VM/VirtualMachine.py:193-197 | the same for RET, which also leaves the globals alone |
| `Machine.SparkVM.constructor` | VM/VirtualMachine.py:5-19 | ip 0, empty stack, globals and call stack, not halted, no cycles; the default slice is 60 |
| `Machine.SparkVM.Reset` | VM/VirtualMachine.py:21-25 | clears ip, stack, halted and the cycle counter, and keeps globals, call stack and `sp` |
| `Machine.SparkVM.Pop` | VM/VirtualMachine.py:62-71 | `list.pop()`: the last element and the shorter stack, or an IndexError with nothing changed |
| `Machine.SparkVM.ReadOperand` | VM/VirtualMachine.py:47-48 | reads `code[ip]` and advances ip, or raises IndexError with nothing changed |
| `Machine.SparkVM.ExecOpcode` | VM/VirtualMachine.py:42-205 | the new state and the exception are those `Exec` describes |
| `Machine.SparkVM.ExecDataOp` | VM/VirtualMachine.py:46-66 | LOAD_CONST, LOAD_VAR, STORE_VAR and POP as `ExecData` describes |
| `Machine.SparkVM.ExecBinaryOp` | VM/VirtualMachine.py:69-117 | pop `b`, pop `a`, push `a op b`, as `ExecBinary` describes |
| `Machine.SparkVM.ExecNegOp` | VM/VirtualMachine.py:85-87 | as `ExecNeg` describes |
| `Machine.SparkVM.ExecJumpOp` | VM/VirtualMachine.py:120-131 | as `ExecJump` describes |
| `Machine.SparkVM.ExecCallOp` | VM/VirtualMachine.py:137-152 | as `ExecCall` describes |
| `Machine.SparkVM.ExecSysOp` | VM/VirtualMachine.py:154-191 | reads id and argc, pops the arguments into call order, and calls the host, as `ExecSys` describes |
| `Machine.SparkVM.HostCall` | VM/VirtualMachine.py:165-191 | the host dispatch, as `SysCall` describes |
| `Machine.SparkVM.Step` | VM/VirtualMachine.py:27-40 | the fetch-execute loop of one slice ends in the state `Run` describes |
| `Machine.SparkVM.Cycle` | VM/VirtualMachine.py:30-40 | one pass of the loop either ends the slice with `Run`'s outcome or leaves a state whose remaining slice, one cycle shorter, has the same outcome |
| `Machine.SparkVM.CallFunction` | VM/VirtualMachine.py:207-220 | as `FunctionCall` describes, each slice of the default 60 cycles |
| `Machine.SparkVM.StepUntilReturn` | VM/VirtualMachine.py:214-215 | the loop of slices ends in the state `CallLoop` describes |
| `MachineProofs.LoadConstPushes` | VM/VirtualMachine.py:46-49 | LOAD_CONST pushes the constant its operand indexes, with Python's negative indexing, and a missing operand or constant is an IndexError |
| `MachineProofs.PopEmptyDoesNothing` | VM/VirtualMachine.py:65-66 | POP drops the top of the stack, and on an empty stack changes nothing and raises nothing |
| `MachineProofs.LoadVarDefault` | VM/VirtualMachine.py:51-56 | LOAD_VAR pushes the global of that name, or `0.0` when it is unset, and leaves the globals alone |
| `MachineProofs.StoreVarPops` | VM/VirtualMachine.py:58-63 | STORE_VAR pops the top into the global of that name, or raises on an empty stack after reading its operand |
| `MachineProofs.BinaryOperandOrder` | VM/VirtualMachine.py:69-117 | a binary instruction computes `a op b` with `b` the top and `a` beneath it; on a TypeError both are already popped |
| `MachineProofs.BinaryUnderflow` | VM/VirtualMachine.py:70-71 | with fewer than two values it raises, and the stack is left empty |
| `MachineProofs.DivModByZero` | VM/VirtualMachine.py:81-91 | DIV and MOD by a zero operand push the integer 0 |
| `MachineProofs.GreaterIsSwappedLess` | VM/VirtualMachine.py:102-117 | `a > b` is `b < a` and `a >= b` is `b <= a` |
| `MachineProofs.EqualityTotal` | VM/VirtualMachine.py:94-101 | EQ and NEQ never raise and give opposite booleans |
| `MachineProofs.StackEffect` | VM/VirtualMachine.py:46-197 | the fixed stack effect, one of -1, 0 or 1, of every instruction except POP, CALL and SYS |
| `MachineProofs.StackEffectHolds` | VM/VirtualMachine.py:46-197 | every instruction with a fixed effect that does not raise changes the stack depth by exactly that effect |
| `MachineProofs.JumpIfFalseBranches` | VM/VirtualMachine.py:125-131 | JMP_IF_FALSE pops the condition and jumps to the target exactly when it is falsy, else falls through |
| `MachineProofs.JumpGoes` | VM/VirtualMachine.py:120-123 | JMP sets ip to its operand |
| `MachineProofs.CallSemantics` | VM/VirtualMachine.py:137-152 | CALL on an integer target, or a name bound to one, pushes the return address and jumps; otherwise it drops up to argc values |
| `MachineProofs.IntCalleeEntered` | VM/VirtualMachine.py:142-143 | an integer callee is its own target |
| `MachineProofs.RetSemantics` | VM/VirtualMachine.py:193-197 | RET pops the return address into ip and keeps the stack, or halts when the call stack is empty |
| `MachineProofs.CallThenRet` | VM/VirtualMachine.py:137-197 | CALL into an address and then RET come back to just after the CALL with the call stack as before |
| `MachineProofs.SysCallPushesOne` | VM/VirtualMachine.py:165-191 | a host call that does not raise pushes exactly one value on top of the unchanged stack |
| `MachineProofs.SysStackEffect` | VM/VirtualMachine.py:154-191 | SYS removes its argc arguments and pushes one result |
| `MachineProofs.SysEffectsOnlyWithHost` | VM/VirtualMachine.py:165-191 | only pset, spr and cls with a host record one host effect; nothing else does |
| `MachineProofs.SysWithoutHost` | VM/VirtualMachine.py:190-191 | without a host every SYS pushes 0 |
| `MachineProofs.ButtonReadsHost` | VM/VirtualMachine.py:176-180 | btn pushes 1 when the host reports the button pressed, else 0 |
| `MachineProofs.SprWithoutMethod` | VM/VirtualMachine.py:171-173 | spr on a host without the method raises AttributeError and pushes nothing |
| `MachineProofs.RunCycles` | VM/VirtualMachine.py:27-40 | a slice spends at most `max_cycles` cycles |
| `MachineProofs.RunStopsQuietly` | VM/VirtualMachine.py:30 | a slice that does not raise ends halted, with ip past the code, or after all its cycles |
| `MachineProofs.RunOne` | VM/VirtualMachine.py:30-40 | one cycle fetches the opcode, advances ip, executes and counts one cycle |
| `MachineProofs.HaltedStays` | VM/VirtualMachine.py:30 | a halted machine does nothing |
| `MachineProofs.CallLoopStops` | VM/VirtualMachine.py:214-215 | the loop of slices ends only when ip leaves the code, the call stack empties or the machine halts |
| `MachineProofs.MissingFunctionIgnored` | VM/VirtualMachine.py:208 | calling an unbound name does nothing |
| `MachineProofs.FunctionCallDropsResult` | VM/VirtualMachine.py:209-220 | `call_function` pushes the sentinel return address, runs the loop, and drops one value when the stack grew |
| `MachineProofs.SentinelEndsLoop` | VM/VirtualMachine.py:212-215 | returning to the sentinel address `len(code)` ends the loop at once |
| `MachineProofs.UnknownOpcodeFaults` | VM/VirtualMachine.py:204-205 | exactly a number outside the opcode table raises "unknown opcode" at `ip - 1`, and it changes nothing |
| `Editor.WithHistory` | Tools/CodeEditor.py:75-81 | snapshots the buffer as the newest entry, makes it current, keeps at most 50 entries, and changes nothing else |
| `Editor.Undone` | Tools/CodeEditor.py:83-89 | steps back one entry and restores its buffer and cursor, or does nothing at the first entry |
| `Editor.Redone` | Tools/CodeEditor.py:91-97 | steps forward one entry and restores it, or does nothing at the newest |
| `Editor.SortedSelection` | Tools/CodeEditor.py:99-102 | none without an anchor; otherwise the anchor and the cursor, in document order |
| `Editor.Prefix` | Tools/CodeEditor.py:110-112 | `s[:k]` with Python's clamping |
| `Editor.Suffix` | Tools/CodeEditor.py:110-112 | `s[k:]` with Python's clamping |
| `Editor.LinesWithout` | Tools/CodeEditor.py:109-113 | the rows before the selection, the joined row, and the rows after it |
| `Editor.SelectionDeleted` | Tools/CodeEditor.py:104-117 | deletes exactly when a selection exists, clears it and keeps the buffer valid; otherwise nothing changes; an anchor row past the buffer raises `IndexError` after the history save |
| `Common.Lead` | Tools/CodeEditor.py:166 | the leading whitespace `strip()` removes |
| `Common.Trail` | Tools/CodeEditor.py:166 | the trailing whitespace `strip()` removes |
| `Common.Strip` | Tools/CodeEditor.py:166 | `strip()` neither starts nor ends with whitespace |
| `Common.StripIgnoresBlanks` | Tools/CodeEditor.py:166 | whitespace added around a string does not change what `strip()` leaves |
| `Common.StripTrimmed` | Tools/CodeEditor.py:166 | `strip()` leaves a string without outer whitespace unchanged |
| `Editor.WordRunStart` | Tools/CodeEditor.py:167 | the start of the trailing run of word characters |
| `Editor.FirstIdentStart` | Tools/CodeEditor.py:167 | the first identifier-start character from a position |
| `Editor.ThemeIndex` | Tools/CodeEditor.py:65-69 | `theme_names.index(name)`, and 0 when the name is unknown |
| `Editor.NextTheme` | Tools/CodeEditor.py:64-72 | the next theme is always one of the four |
| `Editor.CodeEditor.constructor` | Tools/CodeEditor.py:8-37 | one empty line, cursor at the origin, no selection, the DARK theme, and one history entry |
| `Editor.CodeEditor.SaveHistory` | Tools/CodeEditor.py:75-81 | the new state is the one `WithHistory` describes |
| `Editor.CodeEditor.Undo` | Tools/CodeEditor.py:83-89 | the new state is the one `Undone` describes |
| `Editor.CodeEditor.Redo` | Tools/CodeEditor.py:91-97 | the new state is the one `Redone` describes |
| `Editor.CodeEditor.DeleteSelection` | Tools/CodeEditor.py:104-117 | the new state and the result (`True`, `False` or `IndexError`) are those `SelectionDeleted` describes |
| `Editor.CodeEditor.AnalyzeCursorContext` | Tools/CodeEditor.py:157-176 | the backward scan over the text before the cursor returns what `CursorContext` describes |
| `Editor.CodeEditor.GetIndentation` | Tools/CodeEditor.py:201-208 | the number of leading spaces: all before it are spaces and the next character is not |
| `Editor.CodeEditor.ToggleTheme` | Tools/CodeEditor.py:64-72 | only the theme name changes, to the next one |
| `EditorProofs.SaveKeepsPast` | Tools/CodeEditor.py:76-80 | the redo tail is cut, the snapshot appended, and the oldest entry dropped past 50 |
| `EditorProofs.UndoAfterSave` | Tools/CodeEditor.py:75-89 | undo right after a save restores the entry that was current before the save |
| `EditorProofs.UndoThenRedo` | Tools/CodeEditor.py:83-97 | redo undoes undo, back to the current entry |
| `EditorProofs.RedoThenUndo` | Tools/CodeEditor.py:83-97 | whenever a redo is possible, undo undoes it |
| `EditorProofs.UndoRedoAtFirstEntry` | Tools/CodeEditor.py:84-92 | at the first entry undo does nothing, and redo still moves forward |
| `EditorProofs.UndoRedoKeepValid` | Tools/CodeEditor.py:83-97 | undo and redo restore a well-formed buffer |
| `EditorProofs.StaleAnchorRaises` | Tools/CodeEditor.py:83-117 | a selection started on a row that an undo then removes makes `delete_selection` raise `IndexError` |
| `EditorProofs.JoinAppend` | Tools/CodeEditor.py:110-113 | joining two runs of rows puts one newline between them |
| `EditorProofs.Decompose` | Tools/CodeEditor.py:110-113 | the joined text is the rows before a row, that row, and the rows after |
| `EditorProofs.RowsInOrder` | Tools/CodeEditor.py:102 | an earlier row ends before a later row starts in the joined text |
| `EditorProofs.JoinWithout` | Tools/CodeEditor.py:109-113 | the joined text after deletion is the rows before, the joined row, and the rows after |
| `EditorProofs.DeletedText` | Tools/CodeEditor.py:109-113 | deleting a selection removes exactly the characters between its two ends from the text |
| `EditorProofs.DeleteSelectionText` | Tools/CodeEditor.py:104-117 | when the anchor row exists, `delete_selection` removes exactly the selected text and puts the cursor at its start |
| `EditorProofs.DeleteSelectionUndo` | Tools/CodeEditor.py:75-117 | undo after deleting restores the entry current before it; redo then gives back the buffer and cursor as they were just before the deletion |
| `EditorProofs.StripRemovesSpace` | Tools/CodeEditor.py:166 | `strip()` is a slice with only whitespace cut on either side |
| `EditorProofs.TrailingIdentLeftmost` | Tools/CodeEditor.py:167-168 | the `[a-zA-Z_]\w*$` search finds nothing exactly when no identifier runs to the end, and otherwise the leftmost one |
| `EditorProofs.ScanFinds` | Tools/CodeEditor.py:161-176 | the scan stops at the last unmatched `(` and reports the identifier before it with the number of top-level commas after it, or nothing |
| `EditorProofs.ScanFindsNothing` | Tools/CodeEditor.py:161-176 | with no unmatched `(` the scan reports nothing |
| `EditorProofs.CursorContextSpec` | Tools/CodeEditor.py:157-176 | the call context is the name before the innermost open `(` and the argument index, or nothing |
| `EditorProofs.ThemeStep` | Tools/CodeEditor.py:64-72 | each theme toggles to the next in order, wrapping around, and never to itself |
| `EditorProofs.ThemeCycle` | Tools/CodeEditor.py:64-72 | four toggles return to the starting theme |
| `EditorProofs.ThemesDistinct` | Tools/Themes.py:1 | the four theme names are distinct |
| `EditorProofs.UnknownThemeToggles` | Tools/CodeEditor.py:66-71 | an unknown theme counts as the first, so it toggles to RETRO |
| `EndToEnd.ProductParses` | VM/Parser.py:30-67 | the printed tokens of `x = 2 * 3` parse to the one-assignment program |
| `EndToEnd.ProductCompiles` | VM/Compiler.py:37-73 | `x = 2 * 3` compiles without error to LOAD_CONST 0, LOAD_CONST 1, MUL, STORE_VAR 2, HALT over the pool 2.0, 3.0, "x" |
| `EndToEnd.ProductRuns` | VM/VirtualMachine.py:27-134 | that code, run from a fresh machine for at least five cycles, halts after exactly five with an empty stack, no host effect and the single global `x` = 6.0 |
| `EndToEnd.ParseCompileRun` | VM/CompilerTest.py:50-119 | parse, compile and run in sequence: the program parses, compiles without error, and its run halts with `x` = 6.0 |

## Left out

- `Lexer.TokenizeShape`: states the shape of the stream only. The line and column of each token are stated by `Lexer.TokenPositions` and, for a whole source, by `Lexer.TokenStreamShape`; adding them to this lemma makes one proof too large.
- `Parser.ParseIf`: its own contract states only the node kind and progress. That the `:` or `then` is optional and that any number of newlines may follow is stated by `Unparser.IfRoundTrip`, `Unparser.IfStep` and `Unparser.IfGap`.
- `Parser.ParseWhile`: its own contract states only the node kind and progress. That `do` is optional is stated by `Unparser.WhileRoundTrip`, `Unparser.WhileStep` and `Unparser.WhileGap`.
- `Parser.Parse`: its own contract states only that the result is a Program. That two statements need no NEWLINE between them is stated by `Unparser.AssignmentNeedsNoNewline` and `Unparser.ProgramStep`.
- `Unparser.ExpressionRoundTrip`: the printer writes a number only as a non-negative whole number, so literals with a fraction (`digits.digits`) are outside the round trip. Their conversion is stated by `Parser.NumberLexemeConverts` instead.
- `Parser.FloatOf`: Python's `float()` also accepts signs, exponents, `_` separators, surrounding blanks, `inf` and `nan`. Only `digits` and `digits.digits` are modelled, because those are the only NUMBER texts the lexer produces; a NUMBER token with any other text gives `BadNumber` in the model, where Python might convert it or raise `ValueError`.
- `Machine.SysCall`: the host's own `pset` calls `int()` on its colour and coordinates, which can raise `TypeError` or `ValueError`. The model records the call as an effect and does not model that raise; `VM/Hardware.py` is not part of this model.
- The host hardware (`VM/Hardware.py`, pygame) is a parameter: a `btn` oracle, a flag for whether `spr` exists, and a log of the pset, spr and cls calls. Drawing, sound and input are not modelled.
- Floating point is modelled by mathematical reals. IEEE rounding, infinities, NaN and `-0.0` are not modelled.
- `Values.IntOf`: Python's `int()` on a string also reads non-ASCII decimal digits (Arabic-Indic, full-width and the like). The model reads only `0`-`9`, so `btn` with such a string faults in the model where Python reads the button.
- String `%` formatting (`"%d" % 5`) is treated as a TypeError, because the compiler never emits MOD.
- `\d` and `\w` are ASCII in the lexer and the editor. Python's Unicode digits and letters are not modelled.
- `Machine.SparkVM.CallFunction` takes a fuel bound on the number of slices. The Python loop may never end, and the model reports running out of fuel instead.
- `_exec_opcode` is split into one method per opcode family, and the `call_function` loop into `StepUntilReturn`. The behaviour is the same.
- `parse_term` and `parse_unary` are never called by the parser, so they are not modelled.
- The texts of the parser's and compiler's error messages are not modelled. A parser error carries only the offending token.
- Accepting an autocomplete suggestion (`Tools/CodeEditor.py:265-273`) inserts the text and only then calls `save_history()`, and `load_code` (`Tools/CodeEditor.py:48-50`) replaces the buffer without saving. Neither is modelled, so the undo properties above are stated for the save-first paths only.
- The editor's UI is not part of this model: `handle_input`, drawing, copy/cut/paste, `trigger_suggestion`, `get_word_before_cursor`, `load_code`, `validate_syntax` and the pygame event loop.
- The colour tables behind `self.theme` (`Tools/Themes.py`) and `max_lines_visible` are left out. Only the theme names and their order are kept.
- `Editor.CodeEditor.GetSortedSelection` returns `SortedSelection` of its fields. The ordering properties are stated on `Editor.SortedSelection`.
- `BIOS.py`, `main.py`, `Tools/SystemConsole.py` and `VM/SystemSpecs.py` are not part of this model.
