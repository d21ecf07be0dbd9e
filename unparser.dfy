/** A printer from syntax trees back to token lists, and the theorem that the parser
    of VM/Parser.py inverts it. The printer inserts parentheses only where the
    grammar needs them: an operand whose operator binds more loosely than the
    position it sits in, and the right operand of an operator of the same level.
    That the parser reads those minimal token lists back to the original tree is a
    statement of the grammar's precedence (equality < relational < additive <
    multiplicative < unary minus < primary) and of left associativity. */
module Unparser {
  import opened Common
  import opened Tokens
  import opened Data
  import opened Parser
  import Lexer

  function Tok(kind: TokenKind, value: string): Token { Token(kind, value, 1, 1) }

  /** The binary level of an operator, or 4 when it is not a binary operator. */
  function LevelOf(op: string): (j: nat)
    ensures j <= 4
    ensures j <= 3 ==> op in Ops(j)
    ensures forall i :: 0 <= i <= 3 && op in Ops(i) ==> i == j
  {
    if op in Ops(0) then 0 else if op in Ops(1) then 1 else if op in Ops(2) then 2
    else if op in Ops(3) then 3 else 4
  }

  /** How tightly a node binds: its operator level, 4 for unary minus, 5 for a primary. */
  function Prec(e: Node): nat
  {
    match e
    case BinaryOp(op, _, _) => LevelOf(op)
    case UnaryOp(_, _) => 4
    case _ => 5
  }

  /** The expression trees the printer covers: every operator is one the parser
      produces, and every number is a natural, as a NUMBER lexeme always is once it
      has no fractional digits. */
  predicate PrintableExpr(e: Node)
  {
    match e
    case BinaryOp(op, l, r) => LevelOf(op) <= 3 && PrintableExpr(l) && PrintableExpr(r)
    case UnaryOp(op, x) => op == "-" && PrintableExpr(x)
    case Number(v) => v >= 0.0 && v == v.Floor as real
    case String(_) => true
    case Var(_) => true
    case Call(_, args) => forall a | a in args :: PrintableExpr(a)
    case _ => false
  }

  function DigitChar(d: nat): char
    requires d < 10
  {
    "0123456789"[d]
  }

  function NatToString(n: nat): string
    decreases n
  {
    if n < 10 then [DigitChar(n)] else NatToString(n / 10) + [DigitChar(n % 10)]
  }

  /** The tokens of `e` in a position parsed at level `k` (4 is the factor level). */
  function ExprTokens(e: Node, k: nat): seq<Token>
    decreases e, 1
  {
    if Prec(e) >= k then Raw(e) else [Tok(LPAREN, "(")] + Raw(e) + [Tok(RPAREN, ")")]
  }

  function Raw(e: Node): seq<Token>
    decreases e, 0
  {
    match e
    case BinaryOp(op, l, r) =>
      var j := Min(LevelOf(op), 3);
      ExprTokens(l, j) + [Tok(OP, op)] + ExprTokens(r, j + 1)
    case UnaryOp(op, x) => [Tok(OP, op)] + ExprTokens(x, 4)
    case Number(v) => [Tok(NUMBER, NatToString(if v >= 0.0 then v.Floor else 0))]
    case String(s) => [Tok(STRING, s)]
    case Var(x) => [Tok(IDENT, x)]
    case Call(name, args) => [Tok(IDENT, name), Tok(LPAREN, "(")] + ArgList(args) + [Tok(RPAREN, ")")]
    case _ => []
  }

  function ArgList(args: seq<Node>): seq<Token>
    decreases args, 1
  {
    if args == [] then [] else ExprTokens(args[0], 0) + ArgTail(args[1..])
  }

  function ArgTail(args: seq<Node>): seq<Token>
    decreases args, 0
  {
    if args == [] then [] else [Tok(COMMA, ",")] + ExprTokens(args[0], 0) + ArgTail(args[1..])
  }

  /** `S` ends an expression parsed at level `m`: it is not an opening parenthesis
      (which would turn a variable into a call) and not an operator of level `m` or
      higher (which the parser would take as part of the expression). */
  predicate Stops(S: seq<Token>, m: nat)
  {
    S != [] && S[0].kind != LPAREN && !(S[0].kind == OP && m <= LevelOf(S[0].value) <= 3)
  }

  // ---------------------------------------------------------------------------
  // Numbers

  lemma {:induction false} NatToStringDigits(n: nat)
    ensures |NatToString(n)| >= 1 && Lexer.AllDigits(NatToString(n))
    ensures DigitsValue(NatToString(n)) == n
    decreases n
  {
    var s := NatToString(n);
    if n >= 10 {
      NatToStringDigits(n / 10);
      assert s[..|s| - 1] == NatToString(n / 10);
    }
  }

  lemma NatToStringFloat(n: nat)
    ensures FloatOf(NatToString(n)) == Some(n as real)
  {
    NatToStringDigits(n);
  }

  // ---------------------------------------------------------------------------
  // Expressions

  lemma {:induction false} ExprFirst(e: Node, k: nat)
    requires PrintableExpr(e)
    ensures ExprTokens(e, k) != [] && StartsExpression(ExprTokens(e, k)[0])
    decreases e
  {
    if Prec(e) >= k {
      match e
      case BinaryOp(op, l, r) =>
        ExprFirst(l, Min(LevelOf(op), 3));
      case UnaryOp(_, _) =>
      case Number(_) =>
      case String(_) =>
      case Var(_) =>
      case Call(_, _) =>
    }
  }

  /** The loop over `, argument` reads back every printed argument. */
  lemma {:induction false} ArgTailRoundTrip(acc: seq<Node>, args: seq<Node>, R: seq<Token>)
    requires forall a | a in args :: PrintableExpr(a)
    requires R != [] && R[0].kind in {COMMA, RPAREN}
    ensures ArgsLoop(acc, ArgTail(args) + R) == ArgsLoop(acc + args, R)
    decreases args
  {
    if args == [] {
      assert ArgTail(args) + R == R;
      assert acc + args == acc;
    } else {
      ArgTailStep(acc, args, R);
      ArgTailRoundTrip(acc + [args[0]], args[1..], R);
      AppendHead(acc, args);
    }
  }

  /** What follows an argument stops the expression before it. */
  lemma ArgTailStops(args: seq<Node>, R: seq<Token>)
    requires R != [] && R[0].kind in {COMMA, RPAREN}
    ensures Stops(ArgTail(args) + R, 0)
  {
    if args != [] {
      assert (ArgTail(args) + R)[0] == Tok(COMMA, ",");
    } else {
      assert ArgTail(args) + R == R;
    }
  }

  /** One `, argument` of the loop. */
  lemma ArgTailStep(acc: seq<Node>, args: seq<Node>, R: seq<Token>)
    requires args != [] && forall a | a in args :: PrintableExpr(a)
    requires R != [] && R[0].kind in {COMMA, RPAREN}
    ensures ArgsLoop(acc, ArgTail(args) + R) == ArgsLoop(acc + [args[0]], ArgTail(args[1..]) + R)
    decreases args, 0
  {
    var rest := ArgTail(args[1..]) + R;
    ArgTailStops(args[1..], R);
    ArgTailLayout(args, R);
    FullRoundTrip(0, args[0], rest);
    ArgsLoopComma(acc, ArgTail(args) + R, args[0], rest);
  }

  lemma ArgTailLayout(args: seq<Node>, R: seq<Token>)
    requires args != []
    ensures ArgTail(args) + R != [] && (ArgTail(args) + R)[0].kind == COMMA
    ensures (ArgTail(args) + R)[1..] == ExprTokens(args[0], 0) + (ArgTail(args[1..]) + R)
  {
    assert ArgTail(args) + R == [Tok(COMMA, ",")] + (ExprTokens(args[0], 0) + (ArgTail(args[1..]) + R));
  }

  /** A non-empty printed argument list: the first argument is parsed as an
      expression, and the comma loop then reads the others. */
  lemma ArgListRoundTrip(args: seq<Node>, R: seq<Token>)
    requires args != [] && forall a | a in args :: PrintableExpr(a)
    requires R != [] && R[0].kind in {COMMA, RPAREN}
    ensures ArgList(args) + R != [] && (ArgList(args) + R)[0].kind != RPAREN
    ensures ParseExpression(ArgList(args) + R) == Ok(Parsed(args[0], ArgTail(args[1..]) + R))
    ensures ArgsLoop([args[0]], ArgTail(args[1..]) + R) == ArgsLoop(args, R)
    decreases args, 1
  {
    ExprFirst(args[0], 0);
    var rest := ArgTail(args[1..]) + R;
    ArgListLayout(args, R);
    ArgTailStops(args[1..], R);
    FullRoundTrip(0, args[0], rest);
    ArgTailRoundTrip([args[0]], args[1..], R);
    assert [args[0]] + args[1..] == args;
  }

  lemma ArgListLayout(args: seq<Node>, R: seq<Token>)
    requires args != []
    ensures ArgList(args) + R == ExprTokens(args[0], 0) + (ArgTail(args[1..]) + R)
  {
  }

  /** `parse_call_suffix` reads back a printed argument list. */
  lemma CallSuffixRoundTrip(name: string, args: seq<Node>, S: seq<Token>)
    requires forall a | a in args :: PrintableExpr(a)
    requires S != []
    ensures ParseCallSuffix(name, [Tok(LPAREN, "(")] + ArgList(args) + [Tok(RPAREN, ")")] + S)
      == Ok(Parsed(Call(name, args), S))
    decreases args, 2
  {
    var R := [Tok(RPAREN, ")")] + S;
    var ts := [Tok(LPAREN, "(")] + ArgList(args) + [Tok(RPAREN, ")")] + S;
    assert ts == [Tok(LPAREN, "(")] + (ArgList(args) + R);
    assert ts[1..] == ArgList(args) + R;
    if args == [] {
      assert ts[1..] == R;
    } else {
      ArgListRoundTrip(args, R);
      assert ArgsLoop(args, R) == Ok(Parsed(args, R));
    }
  }

  /** Parsing `e` printed for level `k` leaves the level-`k` loop to continue
      with `e` as its left operand. */
  lemma {:induction false} LevelRoundTrip(k: nat, e: Node, S: seq<Token>)
    requires k <= 3 && PrintableExpr(e) && Stops(S, k + 1)
    ensures ParseLevel(k, ExprTokens(e, k) + S) == LevelLoop(k, e, S)
    decreases e, if Prec(e) < k then 20 + (3 - k) else 5 + (3 - k)
  {
    if Prec(e) == k {
      BinaryRoundTrip(k, e, S);
    } else if k < 3 {
      SameTokens(e, k, k + 1);
      LevelRoundTrip(k + 1, e, S);
      LoopStops(k + 1, e, S);
      LevelStart(k, ExprTokens(e, k + 1) + S, e, S);
    } else {
      SameTokens(e, k, 4);
      FactorRoundTrip(e, S);
      LevelStart(k, ExprTokens(e, 4) + S, e, S);
    }
  }

  /** Printing for two levels on the same side of `e`'s precedence gives the same tokens. */
  lemma SameTokens(e: Node, k: nat, m: nat)
    requires (Prec(e) >= k) == (Prec(e) >= m)
    ensures ExprTokens(e, k) == ExprTokens(e, m)
  {
  }

  /** The loop of level `m` stops at once before a token that stops level `m`. */
  lemma LoopStops(m: nat, e: Node, S: seq<Token>)
    requires m <= 3 && Stops(S, m)
    ensures LevelLoop(m, e, S) == Ok(Parsed(e, S))
  {
  }

  /** The case of `LevelRoundTrip` where `e` is an operator of level `k` itself: its
      left operand is parsed by the same loop, its right one a level higher. */
  lemma {:induction false} BinaryRoundTrip(k: nat, e: Node, S: seq<Token>)
    requires k <= 3 && PrintableExpr(e) && Stops(S, k + 1) && Prec(e) == k
    ensures ParseLevel(k, ExprTokens(e, k) + S) == LevelLoop(k, e, S)
    decreases e, 0
  {
    var op, l, r := e.op, e.left, e.right;
    var T := [Tok(OP, op)] + ExprTokens(r, k + 1) + S;
    assert ExprTokens(e, k) == ExprTokens(l, k) + [Tok(OP, op)] + ExprTokens(r, k + 1);
    assert ExprTokens(e, k) + S == ExprTokens(l, k) + T;
    LevelRoundTrip(k, l, T);
    assert T[0] == Tok(OP, op) && op in Ops(k);
    assert T[1..] == ExprTokens(r, k + 1) + S;
    if k < 3 {
      FullRoundTrip(k + 1, r, S);
    } else {
      FactorRoundTrip(r, S);
    }
  }

  /** Parsing `e` printed for level `k` gives back `e`, with `S` left over. */
  lemma {:induction false} FullRoundTrip(k: nat, e: Node, S: seq<Token>)
    requires k <= 3 && PrintableExpr(e) && Stops(S, k)
    ensures ParseLevel(k, ExprTokens(e, k) + S) == Ok(Parsed(e, S))
    decreases e, if Prec(e) < k then 21 + (3 - k) else 6 + (3 - k)
  {
    LevelRoundTrip(k, e, S);
  }

  /** The same at the level of `parse_factor`. */
  lemma {:induction false} FactorRoundTrip(e: Node, S: seq<Token>)
    requires PrintableExpr(e) && S != [] && S[0].kind != LPAREN
    ensures ParseFactor(ExprTokens(e, 4) + S) == Ok(Parsed(e, S))
    decreases e, if Prec(e) < 4 then 15 else 1
  {
    var ts := ExprTokens(e, 4) + S;
    match e
    case BinaryOp(_, _, _) => ParenRoundTrip(e, S);
    case UnaryOp(_, x) =>
      assert ExprTokens(e, 4) == Raw(e);
      assert ts == [Tok(OP, "-")] + (ExprTokens(x, 4) + S);
      assert ts[1..] == ExprTokens(x, 4) + S;
      FactorRoundTrip(x, S);
    case Number(v) =>
      NatToStringFloat(v.Floor);
    case String(_) =>
    case Var(_) =>
    case Call(_, _) => CallFactorRoundTrip(e, S);
  }

  /** An operator printed as a factor is parenthesised and read back whole. */
  lemma {:induction false} ParenRoundTrip(e: Node, S: seq<Token>)
    requires PrintableExpr(e) && e.BinaryOp? && S != [] && S[0].kind != LPAREN
    ensures ParseFactor(ExprTokens(e, 4) + S) == Ok(Parsed(e, S))
    decreases e, 14
  {
    var ts := ExprTokens(e, 4) + S;
    var R := [Tok(RPAREN, ")")] + S;
    assert ts == [Tok(LPAREN, "(")] + (ExprTokens(e, 0) + R);
    assert ts[1..] == ExprTokens(e, 0) + R;
    FullRoundTrip(0, e, R);
    assert ParsePrimary(ts) == Ok(Parsed(e, S));
  }

  /** A call printed as a factor is read back by `parse_call_suffix`. */
  lemma {:induction false} CallFactorRoundTrip(e: Node, S: seq<Token>)
    requires PrintableExpr(e) && e.Call? && S != [] && S[0].kind != LPAREN
    ensures ParseFactor(ExprTokens(e, 4) + S) == Ok(Parsed(e, S))
    decreases e, 0
  {
    var ts := ExprTokens(e, 4) + S;
    assert ExprTokens(e, 4) == Raw(e);
    assert ts == [Tok(IDENT, e.name)] + ([Tok(LPAREN, "(")] + ArgList(e.args) + [Tok(RPAREN, ")")] + S);
    CallSuffixRoundTrip(e.name, e.args, S);
  }

  /** `parse_expression` inverts the printer: operator precedence and left
      associativity, with parentheses only where they are needed. */
  lemma ExpressionRoundTrip(e: Node, S: seq<Token>)
    requires PrintableExpr(e) && Stops(S, 0)
    ensures ParseExpression(ExprTokens(e, 0) + S) == Ok(Parsed(e, S))
  {
    FullRoundTrip(0, e, S);
  }

  // ---------------------------------------------------------------------------
  // Statements and programs

  lemma AppendHead<T>(acc: seq<T>, xs: seq<T>)
    requires xs != []
    ensures acc + [xs[0]] + xs[1..] == acc + xs
  {
    assert [xs[0]] + xs[1..] == xs;
  }

  function Kw(word: string): Token { Tok(KEYWORD, word) }

  const Newline: Token := Tok(NEWLINE, "\\n")

  /** The statements the printer covers: those `parse_statement` can produce, with
      printable expressions, and no empty `else` block (the parser records an empty
      one as none at all). */
  predicate PrintableStmt(s: Node)
  {
    match s
    case Assign(_, v) => PrintableExpr(v)
    case Call(_, args) => forall a | a in args :: PrintableExpr(a)
    case Return(v) => v.Some? ==> PrintableExpr(v.value)
    case If(c, body, els) =>
      PrintableExpr(c) && (forall x | x in body :: PrintableStmt(x)) &&
      (els.Else? ==> |els.stmts| > 0 && forall x | x in els.stmts :: PrintableStmt(x))
    case While(c, body) => PrintableExpr(c) && forall x | x in body :: PrintableStmt(x)
    case FuncDecl(_, _, body) => forall x | x in body :: PrintableStmt(x)
    case _ => false
  }

  function StmtTokens(s: Node): seq<Token>
    decreases s, 1
  {
    match s
    case Assign(x, v) => [Tok(IDENT, x), Tok(OP, "=")] + ExprTokens(v, 0)
    case Call(_, _) => Raw(s)
    case Return(v) => [Kw("return")] + (if v.Some? then ExprTokens(v.value, 0) else [])
    case If(_, _, _) => [Kw("if")] + IfTail(s, [Kw("then")], 1)
    case While(_, _) => [Kw("while")] + WhileTail(s, [Kw("do")], 1)
    case FuncDecl(_, _, _) => [Kw("function")] + FunctionTail(s)
    case _ => []
  }

  /** What follows `if`: the condition, the separator `sep` (`then`, `:` or nothing),
      `n` newlines, the true block, the else part and `end`. The printer itself uses
      `then` and one newline. */
  function IfTail(s: Node, sep: seq<Token>, n: nat): seq<Token>
    requires s.If?
    decreases s, 0
  {
    ExprTokens(s.cond, 0) + sep + Newlines(n) + BlockTokens(s.body) + ElseTokens(s.elseBody) + [Kw("end")]
  }

  /** The separators `parse_if` accepts after the condition. */
  predicate IfSeparator(sep: seq<Token>)
  {
    sep == [Kw("then")] || sep == [Tok(COLON, ":")] || sep == []
  }

  /** The separators `parse_while` accepts after the condition. */
  predicate WhileSeparator(sep: seq<Token>)
  {
    sep == [Kw("do")] || sep == []
  }

  function Newlines(n: nat): seq<Token>
  {
    if n == 0 then [] else [Newline] + Newlines(n - 1)
  }

  function ElseTokens(els: ElseBody): seq<Token>
    decreases els
  {
    if els.Else? then [Kw("else"), Newline] + BlockTokens(els.stmts) else []
  }

  /** What follows `while`: the condition, the separator `sep` (`do` or nothing), `n`
      newlines, the block and `end`. */
  function WhileTail(s: Node, sep: seq<Token>, n: nat): seq<Token>
    requires s.While?
    decreases s, 0
  {
    ExprTokens(s.cond, 0) + sep + Newlines(n) + BlockTokens(s.body) + [Kw("end")]
  }

  function FunctionTail(s: Node): seq<Token>
    requires s.FuncDecl?
    decreases s, 0
  {
    [Tok(IDENT, s.name), Tok(LPAREN, "(")] + ParamTokens(s.params) + [Tok(RPAREN, ")"), Newline] +
    BlockTokens(s.body) + [Kw("end")]
  }

  /** Each statement followed by one newline. */
  function BlockTokens(body: seq<Node>): seq<Token>
    decreases body, 0
  {
    if body == [] then [] else StmtTokens(body[0]) + [Newline] + BlockTokens(body[1..])
  }

  function ParamTokens(params: seq<string>): seq<Token>
  {
    if params == [] then [] else [Tok(IDENT, params[0])] + ParamTail(params[1..])
  }

  function ParamTail(params: seq<string>): seq<Token>
  {
    if params == [] then [] else [Tok(COMMA, ","), Tok(IDENT, params[0])] + ParamTail(params[1..])
  }

  /** The tokens of a whole program, ending in EOF as the lexer's output does. */
  function ProgramTokens(p: Node): seq<Token>
    requires p.Program?
  {
    BlockTokens(p.body) + [Tok(EOF, "")]
  }

  lemma StmtFirst(s: Node)
    requires PrintableStmt(s)
    ensures StmtTokens(s) != []
    ensures StmtTokens(s)[0].kind == IDENT ||
      (StmtTokens(s)[0].kind == KEYWORD && StmtTokens(s)[0].value in StatementKeywords)
  {
  }

  lemma SkipOneNewline(X: seq<Token>)
    requires X != [] && X[0].kind != NEWLINE
    ensures SkipNewlines([Newline] + X) == Ok(X)
  {
    assert ([Newline] + X)[1..] == X;
  }

  lemma BlockFirst(body: seq<Node>, rest: seq<Token>)
    requires forall x | x in body :: PrintableStmt(x)
    requires rest != [] && rest[0].kind != NEWLINE
    ensures BlockTokens(body) + rest != [] && (BlockTokens(body) + rest)[0].kind != NEWLINE
  {
    if body != [] {
      StmtFirst(body[0]);
      HeadOfAppend(StmtTokens(body[0]), [Newline] + BlockTokens(body[1..]), rest);
    }
  }

  lemma HeadOfAppend(a: seq<Token>, b: seq<Token>, c: seq<Token>)
    requires a != []
    ensures a + b + c != [] && (a + b + c)[0] == a[0]
  {
  }

  /** The newline after a statement is skipped, and what follows starts the next
      statement or is `rest` itself. */
  lemma SkipAfterStatement(body: seq<Node>, rest: seq<Token>)
    requires forall x | x in body :: PrintableStmt(x)
    requires rest != [] && rest[0].kind != NEWLINE
    ensures SkipNewlines([Newline] + BlockTokens(body) + rest) == Ok(BlockTokens(body) + rest)
  {
    BlockFirst(body, rest);
    SkipBeforeAppended(BlockTokens(body), rest);
  }

  lemma SkipBeforeAppended(A: seq<Token>, R: seq<Token>)
    requires A + R != [] && (A + R)[0].kind != NEWLINE
    ensures SkipNewlines([Newline] + A + R) == Ok(A + R)
  {
    assert [Newline] + A + R == [Newline] + (A + R);
    SkipOneNewline(A + R);
  }

  lemma {:induction false} ParamTailRoundTrip(acc: seq<string>, params: seq<string>, R: seq<Token>)
    requires R != [] && R[0].kind == RPAREN
    ensures ParamsLoop(acc, ParamTail(params) + R) == Ok(Parsed(acc + params, R))
    decreases params
  {
    if params == [] {
      assert ParamTail(params) + R == R;
      assert acc + params == acc;
    } else {
      ParamTailStep(acc, params, R);
      ParamTailRoundTrip(acc + [params[0]], params[1..], R);
      AppendHead(acc, params);
    }
  }

  /** One `, name` of the loop. */
  lemma ParamTailStep(acc: seq<string>, params: seq<string>, R: seq<Token>)
    requires params != [] && R != [] && R[0].kind == RPAREN
    ensures ParamsLoop(acc, ParamTail(params) + R) == ParamsLoop(acc + [params[0]], ParamTail(params[1..]) + R)
  {
    var ts := ParamTail(params) + R;
    assert ts == [Tok(COMMA, ",")] + ([Tok(IDENT, params[0])] + (ParamTail(params[1..]) + R));
    assert ts[1..][1..] == ParamTail(params[1..]) + R;
  }

  lemma ParamsLayout(params: seq<string>, R: seq<Token>)
    requires params != []
    ensures var ts := ParamTokens(params) + R;
      ts != [] && ts[0] == Tok(IDENT, params[0]) && ts[1..] == ParamTail(params[1..]) + R
  {
    assert ParamTokens(params) + R == [Tok(IDENT, params[0])] + (ParamTail(params[1..]) + R);
  }

  lemma ParamsRoundTrip(params: seq<string>, R: seq<Token>)
    requires R != [] && R[0].kind == RPAREN
    ensures ParseParams(ParamTokens(params) + R) == Ok(Parsed(params, R))
  {
    if params == [] {
      assert ParamTokens(params) + R == R;
    } else {
      ParamsLayout(params, R);
      ParamTailRoundTrip([params[0]], params[1..], R);
      assert [params[0]] + params[1..] == params;
    }
  }

  /** A printed statement followed by a newline parses back to itself. */
  // One step of each statement form, stated on arbitrary token lists.

  lemma WhileStep(ts: seq<Token>, c: Node, body: seq<Node>, afterCond: seq<Token>, B: seq<Token>, T: seq<Token>)
    requires ts != [] && ts[0] == Kw("while")
    requires ParseExpression(ts[1..]) == Ok(Parsed(c, afterCond))
    requires afterCond != []
    requires SkipNewlines(if AtKeyword(afterCond[0], "do") then afterCond[1..] else afterCond) == Ok(B)
    requires ParseBlock(B, false, []) == Ok(Parsed(body, [Kw("end")] + T))
    ensures ParseWhile(ts) == Ok(Parsed(While(c, body), T))
  {
    assert ([Kw("end")] + T)[1..] == T;
  }

  lemma IfStep(ts: seq<Token>, c: Node, body: seq<Node>, els: seq<Node>, afterCond: seq<Token>, B: seq<Token>,
               tail: seq<Token>, T: seq<Token>)
    requires ts != [] && ts[0] == Kw("if")
    requires ParseExpression(ts[1..]) == Ok(Parsed(c, afterCond))
    requires afterCond != []
    requires SkipNewlines(if afterCond[0].kind == COLON || AtKeyword(afterCond[0], "then") then afterCond[1..]
                          else afterCond) == Ok(B)
    requires ParseBlock(B, true, []) == Ok(Parsed(body, tail))
    requires tail != [] && (tail[0] == Kw("end") || tail[0] == Kw("else"))
    requires tail[0] == Kw("end") ==> els == [] && tail[1..] == T
    requires tail[0] == Kw("else") ==>
      exists E :: SkipNewlines(tail[1..]) == Ok(E) && ParseBlock(E, false, []) == Ok(Parsed(els, [Kw("end")] + T))
    ensures ParseIf(ts) == Ok(Parsed(If(c, body, if |els| > 0 then Else(els) else NoElse), T))
  {
    assert ([Kw("end")] + T)[1..] == T;
    if tail[0] == Kw("else") {
      var E :| SkipNewlines(tail[1..]) == Ok(E) && ParseBlock(E, false, []) == Ok(Parsed(els, [Kw("end")] + T));
    }
  }

  lemma FunctionStep(ts: seq<Token>, name: string, params: seq<string>, body: seq<Node>, P: seq<Token>,
                     afterParams: seq<Token>, B: seq<Token>, T: seq<Token>)
    requires |ts| >= 3 && ts[0] == Kw("function") && ts[1] == Tok(IDENT, name) && ts[2] == Tok(LPAREN, "(")
    requires ParseParams(ts[3..]) == Ok(Parsed(params, afterParams))
    requires afterParams != [] && afterParams[0] == Tok(RPAREN, ")")
    requires SkipNewlines(afterParams[1..]) == Ok(B)
    requires ParseBlock(B, false, []) == Ok(Parsed(body, [Kw("end")] + T))
    ensures ParseFunction(ts) == Ok(Parsed(FuncDecl(name, params, body), T))
  {
    assert ([Kw("end")] + T)[1..] == T;
    assert ts[1..][1..][1..] == ts[3..];
  }

  lemma BlockStep(ts: seq<Token>, stopAtElse: bool, acc: seq<Node>, st: Node, rest: seq<Token>)
    requires ts != [] && !AtKeyword(ts[0], "end") && !AtKeyword(ts[0], "else")
    requires ParseStatement(ts) == Ok(Parsed(st, [Newline] + rest))
    requires SkipNewlines([Newline] + rest) == Ok(rest)
    ensures ParseBlock(ts, stopAtElse, acc) == ParseBlock(rest, stopAtElse, acc + [st])
  {
  }

  /** One round of the program loop: a statement, then any number of newlines, none
      required. */
  lemma ProgramStep(ts: seq<Token>, acc: seq<Node>, st: Node, R: seq<Token>, rest: seq<Token>)
    requires ts != [] && ts[0].kind != EOF && ts[0].kind != NEWLINE
    requires ParseStatement(ts) == Ok(Parsed(st, R))
    requires SkipNewlines(R) == Ok(rest)
    ensures ProgramLoop(ts, acc) == ProgramLoop(rest, acc + [st])
  {
  }

  // The statement forms, printed.

  lemma {:induction false} StmtRoundTrip(s: Node, T: seq<Token>)
    requires PrintableStmt(s) && T != [] && T[0].kind == NEWLINE
    ensures ParseStatement(StmtTokens(s) + T) == Ok(Parsed(s, T))
    decreases s, 1
  {
    match s
    case Assign(_, _) => AssignRoundTrip(s, T);
    case Call(_, _) => CallRoundTrip(s, T);
    case Return(_) => ReturnRoundTrip(s, T);
    case If(_, _, _) => IfRoundTrip(s, [Kw("then")], 1, T);
    case While(_, _) => WhileRoundTrip(s, [Kw("do")], 1, T);
    case FuncDecl(_, _, _) => FunctionRoundTrip(s, T);
  }

  lemma AssignRoundTrip(s: Node, T: seq<Token>)
    requires s.Assign? && PrintableExpr(s.value) && Stops(T, 0)
    ensures ParseStatement(StmtTokens(s) + T) == Ok(Parsed(s, T))
  {
    var ts := StmtTokens(s) + T;
    assert ts == [Tok(IDENT, s.name), Tok(OP, "=")] + (ExprTokens(s.value, 0) + T);
    assert ts[2..] == ExprTokens(s.value, 0) + T;
    ExpressionRoundTrip(s.value, T);
  }

  lemma CallRoundTrip(s: Node, T: seq<Token>)
    requires s.Call? && (forall a | a in s.args :: PrintableExpr(a)) && T != [] && T[0].kind == NEWLINE
    ensures ParseStatement(StmtTokens(s) + T) == Ok(Parsed(s, T))
  {
    var ts := StmtTokens(s) + T;
    assert StmtTokens(s) == Raw(s);
    assert ts == [Tok(IDENT, s.name)] + ([Tok(LPAREN, "(")] + ArgList(s.args) + [Tok(RPAREN, ")")] + T);
    CallSuffixRoundTrip(s.name, s.args, T);
  }

  lemma ReturnRoundTrip(s: Node, T: seq<Token>)
    requires s.Return? && PrintableStmt(s) && T != [] && T[0].kind == NEWLINE
    ensures ParseStatement(StmtTokens(s) + T) == Ok(Parsed(s, T))
  {
    ReturnParsed(s, T);
    KeywordStatement(StmtTokens(s) + T);
  }

  lemma ReturnParsed(s: Node, T: seq<Token>)
    requires s.Return? && PrintableStmt(s) && T != [] && T[0].kind == NEWLINE
    ensures StmtTokens(s) + T != [] && (StmtTokens(s) + T)[0] == Kw("return")
    ensures ParseReturn(StmtTokens(s) + T) == Ok(Parsed(s, T))
  {
    var ts := StmtTokens(s) + T;
    if s.result.Some? {
      var v := s.result.value;
      assert ts == [Kw("return")] + (ExprTokens(v, 0) + T);
      assert ts[1..] == ExprTokens(v, 0) + T;
      ExprFirst(v, 0);
      ExpressionRoundTrip(v, T);
    } else {
      assert ts == [Kw("return")] + T;
    }
  }

  /** An `if` with any of the separators `parse_if` accepts after its condition, and
      any number of newlines before the block, parses back to itself. */
  lemma {:induction false} IfRoundTrip(s: Node, sep: seq<Token>, n: nat, T: seq<Token>)
    requires s.If? && PrintableExpr(s.cond) && (forall x | x in s.body :: PrintableStmt(x))
    requires s.elseBody.Else? ==> |s.elseBody.stmts| > 0 && forall x | x in s.elseBody.stmts :: PrintableStmt(x)
    requires IfSeparator(sep) && T != [] && T[0].kind == NEWLINE
    ensures ParseStatement([Kw("if")] + IfTail(s, sep, n) + T) == Ok(Parsed(s, T))
    decreases s, 0
  {
    var c, body, els := s.cond, s.body, s.elseBody;
    var tail := ElseTokens(els) + [Kw("end")] + T;
    var afterCond := IfLayout(s, sep, n, T);
    var ts := [Kw("if")] + IfTail(s, sep, n) + T;
    var b := ElseRoundTrip(els, T);
    BlockOpens(body, tail);
    IfGap(sep, n, BlockTokens(body) + tail);
    ExpressionRoundTrip(c, afterCond);
    BlockRoundTrip(body, tail, true, []);
    assert [] + body == body;
    IfStep(ts, c, body, b, afterCond, BlockTokens(body) + tail, tail, T);
    KeywordStatement(ts);
  }

  /** How an `if` lines up: `if`, the condition, then the separator, the newlines, the
      true block, the else part and `end`. */
  lemma IfLayout(s: Node, sep: seq<Token>, n: nat, T: seq<Token>) returns (afterCond: seq<Token>)
    requires s.If?
    ensures [Kw("if")] + IfTail(s, sep, n) + T == [Kw("if")] + (ExprTokens(s.cond, 0) + afterCond)
    ensures afterCond == sep + Newlines(n) + (BlockTokens(s.body) + (ElseTokens(s.elseBody) + [Kw("end")] + T))
  {
    var tail := ElseTokens(s.elseBody) + [Kw("end")] + T;
    afterCond := sep + Newlines(n) + (BlockTokens(s.body) + tail);
    assert IfTail(s, sep, n) + T == ExprTokens(s.cond, 0) + afterCond;
  }

  /** `X` opens a block, or is the `else` or `end` that closes one. */
  predicate Opens(X: seq<Token>)
  {
    X != [] && (X[0].kind == IDENT || (X[0].kind == KEYWORD && X[0].value in StatementKeywords + {"else", "end"}))
  }

  lemma BlockOpens(body: seq<Node>, tail: seq<Token>)
    requires forall x | x in body :: PrintableStmt(x)
    requires Opens(tail)
    ensures Opens(BlockTokens(body) + tail)
  {
    if body != [] {
      StmtFirst(body[0]);
      HeadOfAppend(StmtTokens(body[0]), [Newline] + BlockTokens(body[1..]), tail);
    }
  }

  lemma {:induction false} SkipNewlinesPrefix(n: nat, X: seq<Token>)
    requires X != [] && X[0].kind != NEWLINE
    ensures SkipNewlines(Newlines(n) + X) == Ok(X)
    decreases n
  {
    if n > 0 {
      assert Newlines(n) + X == [Newline] + (Newlines(n - 1) + X);
      SkipNewlinesPrefix(n - 1, X);
    }
  }

  /** Newlines and then a block: the newlines are skipped, and the first token neither
      extends the condition before it nor is a separator. */
  lemma NewlinesThenBlock(n: nat, X: seq<Token>)
    requires Opens(X)
    ensures var A := Newlines(n) + X;
      && A != [] && Stops(A, 0) && A[0].kind != COLON && !AtKeyword(A[0], "then") && !AtKeyword(A[0], "do")
      && SkipNewlines(A) == Ok(X)
  {
    SkipNewlinesPrefix(n, X);
    if n == 0 {
      assert Newlines(n) + X == X;
    } else {
      assert (Newlines(n) + X)[0] == Newline;
    }
  }

  /** A separator, newlines, and then a block: the separator stops the condition, and
      once it is dropped the newlines are skipped. */
  lemma SeparatorThenBlock(sep: seq<Token>, n: nat, X: seq<Token>)
    requires |sep| == 1 && sep[0].kind in {KEYWORD, COLON} && Opens(X)
    ensures var A := sep + Newlines(n) + X;
      A != [] && A[0] == sep[0] && Stops(A, 0) && SkipNewlines(A[1..]) == Ok(X)
  {
    assert (sep + Newlines(n) + X)[1..] == Newlines(n) + X;
    SkipNewlinesPrefix(n, X);
  }

  /** After the condition of an `if`: the separator, if there is one, is dropped and the
      newlines skipped, and nothing there extends the condition. */
  lemma IfGap(sep: seq<Token>, n: nat, X: seq<Token>)
    requires IfSeparator(sep) && Opens(X)
    ensures var A := sep + Newlines(n) + X;
      A != [] && Stops(A, 0) &&
      SkipNewlines(if A[0].kind == COLON || AtKeyword(A[0], "then") then A[1..] else A) == Ok(X)
  {
    var A := sep + Newlines(n) + X;
    if sep == [] {
      NewlinesThenBlock(n, X);
      assert sep + Newlines(n) == Newlines(n);
    } else if sep == [Kw("then")] {
      SeparatorThenBlock(sep, n, X);
      assert AtKeyword(A[0], "then");
    } else {
      assert sep == [Tok(COLON, ":")];
      SeparatorThenBlock(sep, n, X);
      assert A[0].kind == COLON;
    }
  }

  /** After the condition of a `while`: the same, with `do` as the only separator. */
  lemma WhileGap(sep: seq<Token>, n: nat, X: seq<Token>)
    requires WhileSeparator(sep) && Opens(X)
    ensures var A := sep + Newlines(n) + X;
      A != [] && Stops(A, 0) &&
      SkipNewlines(if AtKeyword(A[0], "do") then A[1..] else A) == Ok(X)
  {
    var A := sep + Newlines(n) + X;
    if sep == [] {
      NewlinesThenBlock(n, X);
      assert sep + Newlines(n) == Newlines(n);
    } else {
      assert sep == [Kw("do")];
      SeparatorThenBlock(sep, n, X);
      assert AtKeyword(A[0], "do");
    }
  }

  /** The else part after a true block: either `end` straight away, or `else` and a
      block that ends at `end`. */
  lemma {:induction false} ElseRoundTrip(els: ElseBody, T: seq<Token>) returns (b: seq<Node>)
    requires els.Else? ==> |els.stmts| > 0 && forall x | x in els.stmts :: PrintableStmt(x)
    ensures b == if els.Else? then els.stmts else []
    ensures (if |b| > 0 then Else(b) else NoElse) == els
    ensures var tail := ElseTokens(els) + [Kw("end")] + T;
      tail != [] && (tail[0] == Kw("end") || tail[0] == Kw("else")) &&
      (tail[0] == Kw("end") ==> b == [] && tail[1..] == T) &&
      (tail[0] == Kw("else") ==>
        exists E :: SkipNewlines(tail[1..]) == Ok(E) && ParseBlock(E, false, []) == Ok(Parsed(b, [Kw("end")] + T)))
    decreases els, 0
  {
    var afterElse := [Kw("end")] + T;
    var tail := ElseTokens(els) + afterElse;
    assert tail == ElseTokens(els) + [Kw("end")] + T;
    if els.Else? {
      b := els.stmts;
      assert tail == [Kw("else")] + ([Newline] + BlockTokens(b) + afterElse);
      assert tail[1..] == [Newline] + BlockTokens(b) + afterElse;
      SkipAfterStatement(b, afterElse);
      BlockRoundTrip(b, afterElse, false, []);
      assert [] + b == b;
      var E := BlockTokens(b) + afterElse;
      assert SkipNewlines(tail[1..]) == Ok(E) && ParseBlock(E, false, []) == Ok(Parsed(b, [Kw("end")] + T));
    } else {
      b := [];
      assert tail == [Kw("end")] + T;
    }
  }

  /** How a `while` lines up: the keyword, the condition, then the separator, the
      newlines, the block and `end`. */
  lemma WhileLayout(s: Node, sep: seq<Token>, n: nat, T: seq<Token>) returns (afterCond: seq<Token>)
    requires s.While?
    ensures [Kw("while")] + WhileTail(s, sep, n) + T == [Kw("while")] + (ExprTokens(s.cond, 0) + afterCond)
    ensures afterCond == sep + Newlines(n) + (BlockTokens(s.body) + ([Kw("end")] + T))
  {
    afterCond := sep + Newlines(n) + (BlockTokens(s.body) + ([Kw("end")] + T));
    assert WhileTail(s, sep, n) + T == ExprTokens(s.cond, 0) + afterCond;
  }

  /** A `while` with or without `do`, and any number of newlines before the block,
      parses back to itself. */
  lemma {:induction false} WhileRoundTrip(s: Node, sep: seq<Token>, n: nat, T: seq<Token>)
    requires s.While? && PrintableExpr(s.cond) && (forall x | x in s.body :: PrintableStmt(x))
    requires WhileSeparator(sep) && T != [] && T[0].kind == NEWLINE
    ensures ParseStatement([Kw("while")] + WhileTail(s, sep, n) + T) == Ok(Parsed(s, T))
    decreases s, 0
  {
    var tail := [Kw("end")] + T;
    var ts := [Kw("while")] + WhileTail(s, sep, n) + T;
    var afterCond := WhileLayout(s, sep, n, T);
    BlockOpens(s.body, tail);
    WhileGap(sep, n, BlockTokens(s.body) + tail);
    ExpressionRoundTrip(s.cond, afterCond);
    BlockRoundTrip(s.body, tail, false, []);
    assert [] + s.body == s.body;
    WhileStep(ts, s.cond, s.body, afterCond, BlockTokens(s.body) + tail, T);
    KeywordStatement(ts);
  }

  /** How a printed function declaration lines up: `function`, the name, `(`, the
      parameters, then `)`, a newline, the block and `end`. */
  lemma FunctionLayout(s: Node, T: seq<Token>) returns (afterParams: seq<Token>)
    requires s.FuncDecl?
    ensures var ts := StmtTokens(s) + T;
      |ts| >= 3 && ts[0] == Kw("function") && ts[1] == Tok(IDENT, s.name) && ts[2] == Tok(LPAREN, "(") &&
      ts[3..] == ParamTokens(s.params) + afterParams
    ensures afterParams != [] && afterParams[0] == Tok(RPAREN, ")")
    ensures afterParams[1..] == [Newline] + BlockTokens(s.body) + ([Kw("end")] + T)
  {
    afterParams := [Tok(RPAREN, ")"), Newline] + BlockTokens(s.body) + ([Kw("end")] + T);
    var ts := StmtTokens(s) + T;
    assert FunctionTail(s) + T == [Tok(IDENT, s.name), Tok(LPAREN, "(")] + (ParamTokens(s.params) + afterParams);
    assert ts == [Kw("function"), Tok(IDENT, s.name), Tok(LPAREN, "(")] + (ParamTokens(s.params) + afterParams);
  }

  lemma {:induction false} FunctionRoundTrip(s: Node, T: seq<Token>)
    requires s.FuncDecl? && (forall x | x in s.body :: PrintableStmt(x)) && T != [] && T[0].kind == NEWLINE
    ensures ParseStatement(StmtTokens(s) + T) == Ok(Parsed(s, T))
    decreases s, 0
  {
    var tail := [Kw("end")] + T;
    var afterParams := FunctionLayout(s, T);
    ParamsRoundTrip(s.params, afterParams);
    SkipAfterStatement(s.body, tail);
    BlockRoundTrip(s.body, tail, false, []);
    assert [] + s.body == s.body;
    FunctionStep(StmtTokens(s) + T, s.name, s.params, s.body, ParamTokens(s.params), afterParams,
                 BlockTokens(s.body) + tail, T);
    KeywordStatement(StmtTokens(s) + T);
  }

  /** A non-empty printed block is its first statement, a newline, and the rest. */
  lemma BlockCons(body: seq<Node>, T: seq<Token>)
    requires body != [] && PrintableStmt(body[0])
    ensures BlockTokens(body) + T == StmtTokens(body[0]) + ([Newline] + (BlockTokens(body[1..]) + T))
    ensures BlockTokens(body) + T != [] && (BlockTokens(body) + T)[0] == StmtTokens(body[0])[0]
    ensures [Newline] + BlockTokens(body[1..]) + T == [Newline] + (BlockTokens(body[1..]) + T)
  {
    var a, b := StmtTokens(body[0]), BlockTokens(body[1..]);
    assert BlockTokens(body) == a + [Newline] + b;
    StmtFirst(body[0]);
    HeadOfAppend(a, [Newline] + b, T);
  }

  /** A printed block parses back to its statements and stops at its terminator. */
  lemma {:induction false} BlockRoundTrip(body: seq<Node>, T: seq<Token>, stopAtElse: bool, acc: seq<Node>)
    requires forall x | x in body :: PrintableStmt(x)
    requires T != [] && (AtKeyword(T[0], "end") || (stopAtElse && AtKeyword(T[0], "else")))
    ensures ParseBlock(BlockTokens(body) + T, stopAtElse, acc) == Ok(Parsed(acc + body, T))
    decreases body, 0
  {
    if body == [] {
      assert BlockTokens(body) + T == T;
      assert acc + body == acc;
    } else {
      var rest := BlockTokens(body[1..]) + T;
      BlockCons(body, T);
      StmtRoundTrip(body[0], [Newline] + rest);
      SkipAfterStatement(body[1..], T);
      BlockStep(BlockTokens(body) + T, stopAtElse, acc, body[0], rest);
      BlockRoundTrip(body[1..], T, stopAtElse, acc + [body[0]]);
      AppendHead(acc, body);
    }
  }

  lemma {:induction false} ProgramLoopRoundTrip(body: seq<Node>, acc: seq<Node>)
    requires forall x | x in body :: PrintableStmt(x)
    ensures ProgramLoop(BlockTokens(body) + [Tok(EOF, "")], acc) == Ok(acc + body)
    decreases body
  {
    var T := [Tok(EOF, "")];
    if body == [] {
      assert BlockTokens(body) + T == T;
      assert acc + body == acc;
    } else {
      var rest := BlockTokens(body[1..]) + T;
      BlockCons(body, T);
      StmtFirst(body[0]);
      StmtRoundTrip(body[0], [Newline] + rest);
      SkipAfterStatement(body[1..], T);
      ProgramStep(BlockTokens(body) + T, acc, body[0], [Newline] + rest, rest);
      ProgramLoopRoundTrip(body[1..], acc + [body[0]]);
      AppendHead(acc, body);
    }
  }

  /** `parse()` inverts the printer on every program it can print. */
  lemma ProgramRoundTrip(p: Node)
    requires p.Program? && forall x | x in p.body :: PrintableStmt(x)
    ensures Parse(ProgramTokens(p)) == Ok(p)
  {
    ProgramLoopRoundTrip(p.body, []);
    assert [] + p.body == p.body;
  }

  /** The program loop needs no newline between statements: an assignment followed
      directly by any statement parses to the two of them. */
  lemma AssignmentNeedsNoNewline(s1: Node, s2: Node)
    requires s1.Assign? && PrintableExpr(s1.value) && PrintableStmt(s2)
    ensures Parse(StmtTokens(s1) + StmtTokens(s2) + [Newline, Tok(EOF, "")]) == Ok(Program([s1, s2]))
  {
    var T := [Newline, Tok(EOF, "")];
    var second := StmtTokens(s2) + T;
    var ts := StmtTokens(s1) + second;
    assert StmtTokens(s1) + StmtTokens(s2) + T == ts;
    StmtFirst(s1);
    StmtFirst(s2);
    assert ts[0] == StmtTokens(s1)[0] && second[0] == StmtTokens(s2)[0];
    AssignRoundTrip(s1, second);
    StmtRoundTrip(s2, T);
    TwoStatements(ts, second, s1, s2);
  }

  /** The program loop over two statements with nothing between them and a newline
      before EOF. */
  lemma TwoStatements(ts: seq<Token>, second: seq<Token>, s1: Node, s2: Node)
    requires ts != [] && ts[0].kind != EOF && ts[0].kind != NEWLINE
    requires second != [] && second[0].kind != EOF && second[0].kind != NEWLINE
    requires ParseStatement(ts) == Ok(Parsed(s1, second))
    requires ParseStatement(second) == Ok(Parsed(s2, [Newline, Tok(EOF, "")]))
    ensures Parse(ts) == Ok(Program([s1, s2]))
  {
    var T := [Newline, Tok(EOF, "")];
    ProgramStep(ts, [], s1, second, second);
    assert [] + [s1] == [s1];
    assert T[1..] == [Tok(EOF, "")];
    ProgramStep(second, [s1], s2, T, [Tok(EOF, "")]);
    assert [s1] + [s2] == [s1, s2];
  }

  // ---------------------------------------------------------------------------
  // Precedence and associativity, on concrete token lists

  lemma VarTokens(x: string, k: nat)
    requires k <= 5
    ensures ExprTokens(Var(x), k) == [Tok(IDENT, x)]
  {
  }

  lemma BinaryTokens(op: string, l: Node, r: Node, k: nat)
    requires LevelOf(op) <= 3 && k <= LevelOf(op)
    ensures ExprTokens(BinaryOp(op, l, r), k) ==
      ExprTokens(l, LevelOf(op)) + [Tok(OP, op)] + ExprTokens(r, LevelOf(op) + 1)
  {
  }

  /** `a - b - c` is `(a - b) - c`. */
  lemma SubtractionLeftAssociative(a: string, b: string, c: string)
    ensures ParseExpression([Tok(IDENT, a), Tok(OP, "-"), Tok(IDENT, b), Tok(OP, "-"), Tok(IDENT, c), Newline])
      == Ok(Parsed(BinaryOp("-", BinaryOp("-", Var(a), Var(b)), Var(c)), [Newline]))
  {
    var e := BinaryOp("-", BinaryOp("-", Var(a), Var(b)), Var(c));
    ExpressionRoundTrip(e, [Newline]);
    assert LevelOf("-") == 2;
    VarTokens(a, 2); VarTokens(b, 3); VarTokens(c, 3);
    BinaryTokens("-", Var(a), Var(b), 2);
    BinaryTokens("-", e.left, Var(c), 0);
    assert ExprTokens(e, 0) + [Newline] ==
      [Tok(IDENT, a), Tok(OP, "-"), Tok(IDENT, b), Tok(OP, "-"), Tok(IDENT, c), Newline];
  }

  /** `a + b * c` is `a + (b * c)`. */
  lemma MultiplicationBindsTighter(a: string, b: string, c: string)
    ensures ParseExpression([Tok(IDENT, a), Tok(OP, "+"), Tok(IDENT, b), Tok(OP, "*"), Tok(IDENT, c), Newline])
      == Ok(Parsed(BinaryOp("+", Var(a), BinaryOp("*", Var(b), Var(c))), [Newline]))
  {
    var e := BinaryOp("+", Var(a), BinaryOp("*", Var(b), Var(c)));
    ExpressionRoundTrip(e, [Newline]);
    assert LevelOf("+") == 2 && LevelOf("*") == 3;
    VarTokens(a, 2); VarTokens(b, 3); VarTokens(c, 4);
    BinaryTokens("*", Var(b), Var(c), 3);
    BinaryTokens("+", Var(a), e.right, 0);
    assert ExprTokens(e, 0) + [Newline] ==
      [Tok(IDENT, a), Tok(OP, "+"), Tok(IDENT, b), Tok(OP, "*"), Tok(IDENT, c), Newline];
  }

  /** `-a * b` is `(-a) * b`. */
  lemma UnaryMinusBindsTighter(a: string, b: string)
    ensures ParseExpression([Tok(OP, "-"), Tok(IDENT, a), Tok(OP, "*"), Tok(IDENT, b), Newline])
      == Ok(Parsed(BinaryOp("*", UnaryOp("-", Var(a)), Var(b)), [Newline]))
  {
    var e := BinaryOp("*", UnaryOp("-", Var(a)), Var(b));
    ExpressionRoundTrip(e, [Newline]);
    assert LevelOf("*") == 3;
    VarTokens(a, 4); VarTokens(b, 4);
    assert ExprTokens(e.left, 3) == [Tok(OP, "-")] + ExprTokens(Var(a), 4);
    BinaryTokens("*", e.left, Var(b), 0);
    assert ExprTokens(e, 0) + [Newline] == [Tok(OP, "-"), Tok(IDENT, a), Tok(OP, "*"), Tok(IDENT, b), Newline];
  }

  /** `a < b == c` is `(a < b) == c`: relational binds tighter than equality. */
  lemma RelationalBindsTighterThanEquality(a: string, b: string, c: string)
    ensures ParseExpression([Tok(IDENT, a), Tok(OP, "<"), Tok(IDENT, b), Tok(OP, "=="), Tok(IDENT, c), Newline])
      == Ok(Parsed(BinaryOp("==", BinaryOp("<", Var(a), Var(b)), Var(c)), [Newline]))
  {
    var e := BinaryOp("==", BinaryOp("<", Var(a), Var(b)), Var(c));
    ExpressionRoundTrip(e, [Newline]);
    assert LevelOf("==") == 0 && LevelOf("<") == 1;
    VarTokens(a, 1); VarTokens(b, 2); VarTokens(c, 1);
    BinaryTokens("<", Var(a), Var(b), 0);
    BinaryTokens("==", e.left, Var(c), 0);
    assert ExprTokens(e, 0) + [Newline] ==
      [Tok(IDENT, a), Tok(OP, "<"), Tok(IDENT, b), Tok(OP, "=="), Tok(IDENT, c), Newline];
  }

  /** A comma before the closing parenthesis of a call is rejected at the `)`. */
  lemma TrailingCommaRejected(name: string, args: seq<Node>, S: seq<Token>)
    requires args != [] && forall a | a in args :: PrintableExpr(a)
    ensures ParseCallSuffix(name, [Tok(LPAREN, "(")] + ArgList(args) + [Tok(COMMA, ","), Tok(RPAREN, ")")] + S)
      == Err(UnexpectedToken(Tok(RPAREN, ")")))
  {
    var R := [Tok(COMMA, ","), Tok(RPAREN, ")")] + S;
    var ts := [Tok(LPAREN, "(")] + ArgList(args) + R;
    assert ts == [Tok(LPAREN, "(")] + ArgList(args) + [Tok(COMMA, ","), Tok(RPAREN, ")")] + S;
    assert ts == [Tok(LPAREN, "(")] + (ArgList(args) + R);
    assert ts[1..] == ArgList(args) + R;
    ArgListRoundTrip(args, R);
    assert R[1..] == [Tok(RPAREN, ")")] + S;
    ExpressionStart(0, R[1..]);
    assert Expect(ts, LPAREN, None) == Ok(Parsed(ts[0], ts[1..]));
    assert ParseExpression(R[1..]) == Err(UnexpectedToken(Tok(RPAREN, ")")));
    assert ArgsLoop(args, R) == Err(UnexpectedToken(Tok(RPAREN, ")")));
    var first := ParseExpression(ts[1..]).value;
    assert ArgsLoop([first.node], first.rest) == Err(UnexpectedToken(Tok(RPAREN, ")")));
  }
}
