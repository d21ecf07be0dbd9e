/** The recursive-descent parser of VM/Parser.py. The parser object's cursor `self.i`
    is represented by the suffix of the token list that is still to be read: every
    parsing function takes that suffix and returns the node it built together with
    the suffix left after it (`Parsed(node, rest)`), or the error it raised. */
module Parser {
  import opened Common
  import opened Tokens
  import opened Data
  import Lexer

  /** What the parser raises: SyntaxError on an unexpected token, IndexError when it
      peeks past the end of the list, ValueError when `float()` rejects a NUMBER lexeme. */
  datatype ParseError =
    | UnexpectedToken(at: Token)
    | OutOfTokens
    | BadNumber(lexeme: string)

  datatype Parsed<T> = Parsed(node: T, rest: seq<Token>)

  type PResult<T> = Result<Parsed<T>, ParseError>

  // ---------------------------------------------------------------------------
  // float() of a NUMBER lexeme

  function DigitsValue(s: string): nat
    requires Lexer.AllDigits(s)
    decreases |s|
  {
    if s == [] then 0 else DigitsValue(s[..|s| - 1]) * 10 + (s[|s| - 1] as int - '0' as int)
  }

  function Pow10(n: nat): (p: nat)
    ensures p >= 1
  {
    if n == 0 then 1 else 10 * Pow10(n - 1)
  }

  /** Index of the first `.` in `s`, or `|s|` when there is none. */
  function DotIndex(s: string): (k: nat)
    ensures k <= |s| && (k < |s| ==> s[k] == '.') && forall j :: 0 <= j < k ==> s[j] != '.'
  {
    if s == [] then 0 else if s[0] == '.' then 0 else 1 + DotIndex(s[1..])
  }

  /** `float(lexeme)` for the lexeme shapes the lexer produces (`digits` or
      `digits.digits`), as an exact real; any other text is rejected. */
  function FloatOf(s: string): Option<real>
  {
    if |s| >= 1 && Lexer.AllDigits(s) then Some(DigitsValue(s) as real)
    else
      var k := DotIndex(s);
      if 1 <= k < |s| - 1 && Lexer.AllDigits(s[..k]) && Lexer.AllDigits(s[k + 1..]) then
        Some(DigitsValue(s[..k]) as real + DigitsValue(s[k + 1..]) as real / Pow10(|s| - k - 1) as real)
      else None
  }

  /** Every NUMBER lexeme the lexer emits converts. */
  lemma NumberLexemeConverts(s: string)
    requires Lexer.IsNumberLexeme(s)
    ensures FloatOf(s).Some?
  {
    if !(|s| >= 1 && Lexer.AllDigits(s)) {
      var k :| 1 <= k < |s| - 1 && s[k] == '.' && Lexer.AllDigits(s[..k]) && Lexer.AllDigits(s[k + 1..]);
      assert forall j :: 0 <= j < k ==> s[j] != '.' by {
        forall j | 0 <= j < k ensures s[j] != '.' { assert s[..k][j] == s[j]; }
      }
      assert DotIndex(s) == k;
    }
  }

  // ---------------------------------------------------------------------------
  // Cursor primitives

  /** `peek()`: the current token; IndexError past the end. */
  function Peek(ts: seq<Token>): (r: Result<Token, ParseError>)
    ensures r.Ok? <==> |ts| > 0
    ensures r.Ok? ==> r.value == ts[0]
    ensures r.Err? ==> r.error == OutOfTokens
  {
    if ts == [] then Err(OutOfTokens) else Ok(ts[0])
  }

  /** `next()`: the current token, and the cursor moves past it. */
  function Next(ts: seq<Token>): (r: PResult<Token>)
    ensures r.Ok? <==> |ts| > 0
    ensures r.Ok? ==> r.value.node == ts[0] && |r.value.rest| == |ts| - 1 && r.value.rest == ts[1..]
  {
    if ts == [] then Err(OutOfTokens) else Ok(Parsed(ts[0], ts[1..]))
  }

  /** `expect(ttype, val)`: raises unless the type matches or a given value matches. */
  function Expect(ts: seq<Token>, kind: TokenKind, val: Option<string>): (r: PResult<Token>)
    ensures r.Ok? <==> |ts| > 0 && (ts[0].kind == kind || (val.Some? && ts[0].value == val.value))
    ensures r.Ok? ==> r.value.node == ts[0] && r.value.rest == ts[1..]
    ensures r.Err? ==> r.error == if ts == [] then OutOfTokens else UnexpectedToken(ts[0])
  {
    var t :- Peek(ts);
    if t.kind != kind && (val.None? || t.value != val.value) then Err(UnexpectedToken(t))
    else Next(ts)
  }

  /** `skip_newlines()`: drops the NEWLINE tokens at the cursor. */
  function SkipNewlines(ts: seq<Token>): (r: Result<seq<Token>, ParseError>)
    ensures r.Ok? ==> 0 < |r.value| <= |ts| && r.value[0].kind != NEWLINE && r.value == ts[|ts| - |r.value|..]
    ensures r.Ok? ==> forall k :: 0 <= k < |ts| - |r.value| ==> ts[k].kind == NEWLINE
    ensures r.Err? ==> r.error == OutOfTokens && forall k :: 0 <= k < |ts| ==> ts[k].kind == NEWLINE
  {
    if ts == [] then Err(OutOfTokens)
    else if ts[0].kind == NEWLINE then SkipNewlines(ts[1..])
    else Ok(ts)
  }

  predicate AtKeyword(t: Token, word: string) { t.kind == KEYWORD && t.value == word }

  // ---------------------------------------------------------------------------
  // Expressions

  /** The operators of the four binary levels, lowest precedence first:
      equality, relational, additive, multiplicative. */
  function Ops(lv: nat): set<string>
    requires lv <= 3
  {
    if lv == 0 then {"==", "~="}
    else if lv == 1 then {"<", ">", "<=", ">="}
    else if lv == 2 then {"+", "-"}
    else {"*", "/", "%"}
  }

  /** `parse_expression()`: starts at the equality level. */
  function ParseExpression(ts: seq<Token>): (r: PResult<Node>)
    ensures r.Ok? ==> |r.value.rest| < |ts|
    decreases |ts|, 7
  {
    ParseLevel(0, ts)
  }

  /** `parse_equality()`, `parse_relational()`, `parse_additive()` and
      `parse_multiplicative()`: one operand of the next level up, then the loop. */
  function ParseLevel(lv: nat, ts: seq<Token>): (r: PResult<Node>)
    requires lv <= 3
    ensures r.Ok? ==> |r.value.rest| < |ts|
    decreases |ts|, 6 - lv
  {
    var first :- if lv == 3 then ParseFactor(ts) else ParseLevel(lv + 1, ts);
    LevelLoop(lv, first.node, first.rest)
  }

  /** The while-loop of one binary level: each operator of the level and the operand
      after it extend the tree to the left, so the level is left-associative. */
  function LevelLoop(lv: nat, node: Node, ts: seq<Token>): (r: PResult<Node>)
    requires lv <= 3
    ensures r.Ok? ==> |r.value.rest| <= |ts|
    decreases |ts|, 0
  {
    var t :- Peek(ts);
    if t.kind == OP && t.value in Ops(lv) then
      var right :- if lv == 3 then ParseFactor(ts[1..]) else ParseLevel(lv + 1, ts[1..]);
      LevelLoop(lv, BinaryOp(t.value, node, right.node), right.rest)
    else Ok(Parsed(node, ts))
  }

  /** A statement that starts with a statement keyword is parsed by that keyword's rule. */
  lemma KeywordStatement(ts: seq<Token>)
    requires ts != [] && ts[0].kind == KEYWORD
    ensures ts[0].value == "function" ==> ParseStatement(ts) == ParseFunction(ts)
    ensures ts[0].value == "if" ==> ParseStatement(ts) == ParseIf(ts)
    ensures ts[0].value == "while" ==> ParseStatement(ts) == ParseWhile(ts)
    ensures ts[0].value == "return" ==> ParseStatement(ts) == ParseReturn(ts)
  {
  }

  /** A level starts with one operand of the level above (or a factor at the
      multiplicative level) and hands it to its loop. */
  lemma LevelStart(lv: nat, ts: seq<Token>, first: Node, rest: seq<Token>)
    requires lv <= 3
    requires (if lv == 3 then ParseFactor(ts) else ParseLevel(lv + 1, ts)) == Ok(Parsed(first, rest))
    ensures ParseLevel(lv, ts) == LevelLoop(lv, first, rest)
  {
  }

  /** `parse_factor()`: prefix minus, right-recursive, binds tighter than every binary
      operator. */
  function ParseFactor(ts: seq<Token>): (r: PResult<Node>)
    ensures r.Ok? ==> |r.value.rest| < |ts|
    decreases |ts|, 2
  {
    var t :- Peek(ts);
    if t.kind == OP && t.value == "-" then
      var operand :- ParseFactor(ts[1..]);
      Ok(Parsed(UnaryOp("-", operand.node), operand.rest))
    else ParsePrimary(ts)
  }

  /** `parse_primary()`: literal, variable, call, or parenthesised expression. */
  function ParsePrimary(ts: seq<Token>): (r: PResult<Node>)
    ensures r.Ok? ==> |r.value.rest| < |ts|
    decreases |ts|, 1
  {
    var t :- Peek(ts);
    if t.kind == NUMBER then
      match FloatOf(t.value)
      case None => Err(BadNumber(t.value))
      case Some(v) => Ok(Parsed(Number(v), ts[1..]))
    else if t.kind == STRING then Ok(Parsed(String(t.value), ts[1..]))
    else if t.kind == IDENT then
      var after :- Peek(ts[1..]);
      if after.kind == LPAREN then ParseCallSuffix(t.value, ts[1..])
      else Ok(Parsed(Var(t.value), ts[1..]))
    else if t.kind == LPAREN then
      var inner :- ParseExpression(ts[1..]);
      var close :- Expect(inner.rest, RPAREN, None);
      Ok(Parsed(inner.node, close.rest))
    else Err(UnexpectedToken(t))
  }

  /** `parse_call_suffix(name)`: `(` then zero or more comma-separated arguments then `)`. */
  function ParseCallSuffix(name: string, ts: seq<Token>): (r: PResult<Node>)
    ensures r.Ok? ==> |r.value.rest| < |ts|
    decreases |ts|, 0
  {
    var open :- Expect(ts, LPAREN, None);
    var t :- Peek(open.rest);
    if t.kind != RPAREN then
      var first :- ParseExpression(open.rest);
      var all :- ArgsLoop([first.node], first.rest);
      var close :- Expect(all.rest, RPAREN, None);
      Ok(Parsed(Call(name, all.node), close.rest))
    else
      var close :- Expect(open.rest, RPAREN, None);
      Ok(Parsed(Call(name, []), close.rest))
  }

  /** The argument loop: `, expr` as long as a comma follows. */
  function ArgsLoop(args: seq<Node>, ts: seq<Token>): (r: PResult<seq<Node>>)
    ensures r.Ok? ==> |r.value.rest| <= |ts| && |args| <= |r.value.node| && r.value.node[..|args|] == args
    ensures r.Ok? ==> r.value.rest != [] && r.value.rest[0].kind != COMMA
    decreases |ts|, 0
  {
    var t :- Peek(ts);
    if t.kind == COMMA then
      var arg :- ParseExpression(ts[1..]);
      ArgsLoop(args + [arg.node], arg.rest)
    else Ok(Parsed(args, ts))
  }

  /** A comma followed by an expression adds that expression to the arguments. */
  lemma ArgsLoopComma(args: seq<Node>, ts: seq<Token>, e: Node, rest: seq<Token>)
    requires ts != [] && ts[0].kind == COMMA && ParseExpression(ts[1..]) == Ok(Parsed(e, rest))
    ensures ArgsLoop(args, ts) == ArgsLoop(args + [e], rest)
  {
  }

  // ---------------------------------------------------------------------------
  // Statements

  /** The keywords that can open a statement. */
  const StatementKeywords: set<string> := {"function", "if", "while", "return"}

  /** `parse_statement()`: dispatch on the first token, and for an identifier on the
      token after it. */
  function ParseStatement(ts: seq<Token>): (r: PResult<Node>)
    ensures r.Ok? ==> |r.value.rest| < |ts|
    ensures r.Ok? && ts[0].kind == IDENT ==>
      |ts| >= 2 &&
      ((ts[1].kind == LPAREN && r.value.node.Call? && r.value.node.name == ts[0].value) ||
       (ts[1].kind != LPAREN && ts[1].kind == OP && ts[1].value == "=" &&
        r.value.node.Assign? && r.value.node.name == ts[0].value))
    ensures |ts| >= 2 && ts[0].kind == IDENT && ts[1].kind != LPAREN && !(ts[1].kind == OP && ts[1].value == "=") ==>
      r == Err(UnexpectedToken(ts[1]))
    ensures |ts| >= 1 && ts[0].kind != IDENT && !(ts[0].kind == KEYWORD && ts[0].value in StatementKeywords) ==>
      r == Err(UnexpectedToken(ts[0]))
    decreases |ts|, 1
  {
    var t :- Peek(ts);
    if AtKeyword(t, "function") then ParseFunction(ts)
    else if AtKeyword(t, "if") then ParseIf(ts)
    else if AtKeyword(t, "while") then ParseWhile(ts)
    else if AtKeyword(t, "return") then ParseReturn(ts)
    else if t.kind == IDENT then
      var after :- Peek(ts[1..]);
      if after.kind == LPAREN then ParseCallSuffix(t.value, ts[1..])
      else if after.kind == OP && after.value == "=" then
        var value :- ParseExpression(ts[2..]);
        Ok(Parsed(Assign(t.value, value.node), value.rest))
      else Err(UnexpectedToken(after))
    else Err(UnexpectedToken(t))
  }

  /** The tokens before which `return` carries no value. */
  predicate EndsReturn(t: Token)
  {
    t.kind in {NEWLINE, EOF} || (t.kind == KEYWORD && t.value in {"end", "else"})
  }

  /** `parse_return()`: the value is omitted before NEWLINE, EOF, `end` or `else`. */
  function ParseReturn(ts: seq<Token>): (r: PResult<Node>)
    ensures r.Ok? ==> |r.value.rest| < |ts|
    ensures r.Ok? ==> |ts| >= 2 && r.value.node.Return? && (r.value.node.result.None? <==> EndsReturn(ts[1]))
    ensures r.Ok? && r.value.node.result.None? ==> r.value.rest == ts[1..]
  {
    var kw :- Expect(ts, KEYWORD, Some("return"));
    var t :- Peek(kw.rest);
    if !EndsReturn(t) then
      var value :- ParseExpression(kw.rest);
      Ok(Parsed(Return(Some(value.node)), value.rest))
    else Ok(Parsed(Return(None), kw.rest))
  }

  /** The parameter list of `parse_function()`: none, or IDENT followed by `, IDENT`s. */
  function ParseParams(ts: seq<Token>): (r: PResult<seq<string>>)
    ensures r.Ok? ==> |r.value.rest| <= |ts|
  {
    var t :- Peek(ts);
    if t.kind == IDENT then ParamsLoop([t.value], ts[1..])
    else Ok(Parsed([], ts))
  }

  function ParamsLoop(params: seq<string>, ts: seq<Token>): (r: PResult<seq<string>>)
    ensures r.Ok? ==> |r.value.rest| <= |ts| && |params| <= |r.value.node| && r.value.node[..|params|] == params
    ensures r.Ok? ==> r.value.rest != [] && r.value.rest[0].kind != COMMA
    decreases |ts|
  {
    var t :- Peek(ts);
    if t.kind == COMMA then
      var p :- Expect(ts[1..], IDENT, None);
      ParamsLoop(params + [p.node.value], p.rest)
    else Ok(Parsed(params, ts))
  }

  /** The statement loop of a block: statements (each followed by any newlines) until
      `end`, or until `end` or `else` when `stopAtElse`; the terminator is not consumed. */
  function ParseBlock(ts: seq<Token>, stopAtElse: bool, body: seq<Node>): (r: PResult<seq<Node>>)
    ensures r.Ok? ==> |r.value.rest| <= |ts| && body <= r.value.node
    decreases |ts|, 2
  {
    var t :- Peek(ts);
    if AtKeyword(t, "end") || (stopAtElse && AtKeyword(t, "else")) then Ok(Parsed(body, ts))
    else
      var st :- ParseStatement(ts);
      var next :- SkipNewlines(st.rest);
      ParseBlock(next, stopAtElse, body + [st.node])
  }

  /** A block ends only at its terminator, which it leaves for the caller: `end`, or
      also `else` for the true branch of an `if`. */
  lemma {:induction false} BlockStopsAtTerminator(ts: seq<Token>, stopAtElse: bool, body: seq<Node>)
    requires ParseBlock(ts, stopAtElse, body).Ok?
    ensures var rest := ParseBlock(ts, stopAtElse, body).value.rest;
      rest != [] && (AtKeyword(rest[0], "end") || (stopAtElse && AtKeyword(rest[0], "else")))
    decreases |ts|
  {
    var t := ts[0];
    if !(AtKeyword(t, "end") || (stopAtElse && AtKeyword(t, "else"))) {
      var st := ParseStatement(ts).value;
      var next := SkipNewlines(st.rest).value;
      BlockStopsAtTerminator(next, stopAtElse, body + [st.node]);
    }
  }

  /** `parse_function()`: `function NAME ( params ) body end`. */
  function ParseFunction(ts: seq<Token>): (r: PResult<Node>)
    ensures r.Ok? ==> |r.value.rest| < |ts|
    decreases |ts|, 0
  {
    var kw :- Expect(ts, KEYWORD, Some("function"));
    var name :- Expect(kw.rest, IDENT, None);
    var open :- Expect(name.rest, LPAREN, None);
    var params :- ParseParams(open.rest);
    var close :- Expect(params.rest, RPAREN, None);
    var start :- SkipNewlines(close.rest);
    var body :- ParseBlock(start, false, []);
    var end :- Expect(body.rest, KEYWORD, Some("end"));
    Ok(Parsed(FuncDecl(name.node.value, params.node, body.node), end.rest))
  }

  /** `parse_if()`: `if cond [: | then] body [else body] end`; an empty else block is
      recorded as no else block at all. */
  function ParseIf(ts: seq<Token>): (r: PResult<Node>)
    ensures r.Ok? ==> |r.value.rest| < |ts|
    ensures r.Ok? ==> r.value.node.If? && (r.value.node.elseBody.Else? ==> |r.value.node.elseBody.stmts| > 0)
    decreases |ts|, 0
  {
    var kw :- Expect(ts, KEYWORD, Some("if"));
    var cond :- ParseExpression(kw.rest);
    var t :- Peek(cond.rest);
    var afterThen := if t.kind == COLON || AtKeyword(t, "then") then cond.rest[1..] else cond.rest;
    var start :- SkipNewlines(afterThen);
    var body :- ParseBlock(start, true, []);
    var u :- Peek(body.rest);
    var elsePart :-
      if AtKeyword(u, "else") then
        var elseStart :- SkipNewlines(body.rest[1..]);
        ParseBlock(elseStart, false, [])
      else Ok(Parsed([], body.rest));
    var end :- Expect(elsePart.rest, KEYWORD, Some("end"));
    Ok(Parsed(If(cond.node, body.node, if |elsePart.node| > 0 then Else(elsePart.node) else NoElse), end.rest))
  }

  /** `parse_while()`: `while cond [do] body end`. */
  function ParseWhile(ts: seq<Token>): (r: PResult<Node>)
    ensures r.Ok? ==> |r.value.rest| < |ts|
    ensures r.Ok? ==> r.value.node.While?
    decreases |ts|, 0
  {
    var kw :- Expect(ts, KEYWORD, Some("while"));
    var cond :- ParseExpression(kw.rest);
    var t :- Peek(cond.rest);
    var afterDo := if AtKeyword(t, "do") then cond.rest[1..] else cond.rest;
    var start :- SkipNewlines(afterDo);
    var body :- ParseBlock(start, false, []);
    var end :- Expect(body.rest, KEYWORD, Some("end"));
    Ok(Parsed(While(cond.node, body.node), end.rest))
  }

  /** The loop of `parse()`: skip newlines, stop at EOF, otherwise one statement. */
  function ProgramLoop(ts: seq<Token>, body: seq<Node>): (r: Result<seq<Node>, ParseError>)
    decreases |ts|
  {
    var t :- Peek(ts);
    if t.kind == EOF then Ok(body)
    else
      var start :- SkipNewlines(ts);
      if start[0].kind == EOF then Ok(body)
      else
        var st :- ParseStatement(start);
        var next :- SkipNewlines(st.rest);
        ProgramLoop(next, body + [st.node])
  }

  /** `Parser(tokens).parse()`: the Program node of a whole token list. */
  function Parse(tokens: seq<Token>): (r: Result<Node, ParseError>)
    ensures r.Ok? ==> r.value.Program?
  {
    var body :- ProgramLoop(tokens, []);
    Ok(Program(body))
  }

  /** The tokens that can open an expression: a literal, a name, `(`, or prefix `-`. */
  predicate StartsExpression(t: Token)
  {
    t.kind in {NUMBER, STRING, IDENT, LPAREN} || (t.kind == OP && t.value == "-")
  }

  /** At every level, an expression that does not open with one of those tokens is
      rejected at its first token. */
  lemma {:induction false} ExpressionStart(lv: nat, ts: seq<Token>)
    requires lv <= 3 && ts != [] && !StartsExpression(ts[0])
    ensures ParseLevel(lv, ts) == Err(UnexpectedToken(ts[0]))
    decreases 3 - lv
  {
    if lv < 3 {
      ExpressionStart(lv + 1, ts);
    } else {
      assert ParseFactor(ts) == Err(UnexpectedToken(ts[0]));
    }
  }

  /** A comma before the closing parenthesis of a parameter list is rejected at the `)`. */
  lemma TrailingCommaInParameters(params: seq<string>, S: seq<Token>)
    ensures ParamsLoop(params, [Token(COMMA, ",", 1, 1), Token(RPAREN, ")", 1, 1)] + S)
      == Err(UnexpectedToken(Token(RPAREN, ")", 1, 1)))
  {
    var ts := [Token(COMMA, ",", 1, 1), Token(RPAREN, ")", 1, 1)] + S;
    assert ts[1..][0] == Token(RPAREN, ")", 1, 1);
  }
}
