/** The SparkLang scanner (VM/Lexer.py): the alternatives of TOKEN_SPEC are tried in order at
    each offset and the first one that matches wins. */
module Lexer {
  import opened Common
  import opened Tokens

  /** The names of the TOKEN_SPEC alternatives, in priority order. */
  datatype Rule =
    | Comment | Newline | Skip | StringLit | Number | Ident | Op
    | LParen | RParen | Comma | Colon | Unknown

  const Keywords: set<string> := {"function", "end", "if", "then", "else", "while", "do", "return"}

  /** Every lexeme the OP alternative can match. */
  const OpLexemes: set<string> :=
    {"==", "~=", "<=", ">=", "+", "-", "*", "/", "%", "<", ">",
     "+=", "-=", "*=", "/=", "%=", "="}

  predicate IsDigit(c: char) { '0' <= c <= '9' }
  predicate IsIdentStart(c: char) { 'A' <= c <= 'Z' || 'a' <= c <= 'z' || c == '_' }
  predicate IsIdentChar(c: char) { IsIdentStart(c) || IsDigit(c) }
  predicate IsBlank(c: char) { c == ' ' || c == '\t' || c == '\r' }
  predicate NotNewline(c: char) { c != '\n' }

  predicate AllDigits(s: string) { forall k :: 0 <= k < |s| ==> IsDigit(s[k]) }

  /** `[A-Za-z_][A-Za-z0-9_]*` matches the whole of `s`. */
  predicate IsIdentifier(s: string)
  {
    |s| >= 1 && IsIdentStart(s[0]) && forall k :: 1 <= k < |s| ==> IsIdentChar(s[k])
  }

  /** `\d+(\.\d+)?` matches the whole of `s`. */
  predicate IsNumberLexeme(s: string)
  {
    (|s| >= 1 && AllDigits(s)) ||
    (exists k :: 1 <= k < |s| - 1 && s[k] == '.' && AllDigits(s[..k]) && AllDigits(s[k + 1..]))
  }

  /** End of the longest run of characters satisfying `p` that starts at `i`. */
  function RunEnd(src: string, i: nat, p: char -> bool): (e: nat)
    requires i <= |src|
    ensures i <= e <= |src|
    ensures forall k :: i <= k < e ==> p(src[k])
    ensures e == |src| || !p(src[e])
    decreases |src| - i
  {
    if i == |src| || !p(src[i]) then i else RunEnd(src, i + 1, p)
  }

  /** `"([^"\\]|\\.)*"` after the opening quote: the offset just past the closing quote,
      or None when the string is unterminated (the two inner alternatives start with
      different characters, so no backtracking can produce another match). */
  function StringEnd(src: string, j: nat): (r: Option<nat>)
    requires j <= |src|
    ensures r.Some? ==> j < r.value <= |src| && src[r.value - 1] == '"'
    decreases |src| - j
  {
    if j == |src| then None
    else if src[j] == '"' then Some(j + 1)
    else if src[j] == '\\' then
      (if j + 1 < |src| && src[j + 1] != '\n' then StringEnd(src, j + 2) else None)
    else StringEnd(src, j + 1)
  }

  // The OP alternative: `==`, `~=`, `<=`, `>=`, then one of `+ - * / % < >` with an
  // optional `=`, then a lone `=`, tried left to right.
  function OpEnd(src: string, i: nat): (r: Option<nat>)
    requires i < |src|
    ensures r.Some? ==> i < r.value <= |src| && src[i..r.value] in OpLexemes
  {
    if i + 1 < |src| && src[i + 1] == '=' && src[i] in {'=', '~', '<', '>'} then
      assert src[i..i + 2] == [src[i], '='];
      Some(i + 2)
    else if src[i] in {'+', '-', '*', '/', '%', '<', '>'} then
      if i + 1 < |src| && src[i + 1] == '=' then
        assert src[i..i + 2] == [src[i], '='];
        Some(i + 2)
      else
        assert src[i..i + 1] == [src[i]];
        Some(i + 1)
    else if src[i] == '=' then
      assert src[i..i + 1] == "=";
      Some(i + 1)
    else None
  }

  /** `\d+(\.\d+)?` starting at `i`, whose first character is a digit. */
  function NumberEnd(src: string, i: nat): (e: nat)
    requires i < |src| && IsDigit(src[i])
    ensures i < e <= |src| && IsNumberLexeme(src[i..e])
  {
    var d := RunEnd(src, i, IsDigit);
    assert AllDigits(src[i..d]);
    if d + 1 < |src| && src[d] == '.' && IsDigit(src[d + 1]) then
      var f := RunEnd(src, d + 1, IsDigit);
      var s := src[i..f];
      assert s[..d - i] == src[i..d] && s[d - i + 1..] == src[d + 1..f];
      assert s[d - i] == '.';
      f
    else
      d
  }

  /** The alternative that matches at offset `i` and the offset where its match ends. */
  function MatchAt(src: string, i: nat): (m: (Rule, nat))
    requires i < |src|
    ensures i < m.1 <= |src|
    ensures m.0 == Newline <==> src[i] == '\n'
    ensures m.0 == Newline ==> m.1 == i + 1
    ensures m.0 == Ident ==> IsIdentifier(src[i..m.1])
    ensures m.0 == Number ==> IsNumberLexeme(src[i..m.1])
    ensures m.0 == Op ==> src[i..m.1] in OpLexemes
    ensures m.0 == StringLit ==> i + 2 <= m.1 && src[i] == '"'
    ensures m.0 in {LParen, RParen, Comma, Colon, Unknown} ==> m.1 == i + 1
    ensures m.0 == LParen ==> src[i] == '('
    ensures m.0 == RParen ==> src[i] == ')'
    ensures m.0 == Comma ==> src[i] == ','
    ensures m.0 == Colon ==> src[i] == ':'
  {
    if i + 1 < |src| && src[i] == '-' && src[i + 1] == '-' then (Comment, RunEnd(src, i + 2, NotNewline))
    else if src[i] == '\n' then (Newline, i + 1)
    else if IsBlank(src[i]) then (Skip, RunEnd(src, i + 1, IsBlank))
    else if src[i] == '"' && StringEnd(src, i + 1).Some? then (StringLit, StringEnd(src, i + 1).value)
    else if IsDigit(src[i]) then (Number, NumberEnd(src, i))
    else if IsIdentStart(src[i]) then
      var e := RunEnd(src, i + 1, IsIdentChar);
      assert forall k :: 1 <= k < e - i ==> src[i..e][k] == src[i + k];
      (Ident, e)
    else if OpEnd(src, i).Some? then (Op, OpEnd(src, i).value)
    else if src[i] == '(' then (LParen, i + 1)
    else if src[i] == ')' then (RParen, i + 1)
    else if src[i] == ',' then (Comma, i + 1)
    else if src[i] == ':' then (Colon, i + 1)
    else (Unknown, i + 1)
  }

  /** Python's `str.replace(pat, rep)` for a two-character pattern: non-overlapping
      occurrences, replaced from left to right. */
  function ReplaceAll(s: string, pat: string, rep: string): string
    requires |pat| == 2
    decreases |s|
  {
    if |s| < 2 then s
    else if s[..2] == pat then rep + ReplaceAll(s[2..], pat, rep)
    else [s[0]] + ReplaceAll(s[1..], pat, rep)
  }

  /** The three replacements of a STRING lexeme's inner text, in their source order. */
  function Unescape(inner: string): string
  {
    ReplaceAll(ReplaceAll(ReplaceAll(inner, "\\\"", "\""), "\\\\", "\\"), "\\n", "\n")
  }

  /** The token an alternative yields for lexeme `val`; Comment and Skip yield none. */
  function KindOf(r: Rule, val: string): TokenKind
    requires r !in {Comment, Skip, Newline, StringLit}
  {
    match r
    case Number => NUMBER
    case Ident => if val in Keywords then KEYWORD else IDENT
    case Op => OP
    case LParen => LPAREN
    case RParen => RPAREN
    case Comma => COMMA
    case Colon => COLON
    case Unknown => UNKNOWN
  }

  /** The tokens one match at `pos` contributes (none for a comment or a blank run),
      with the line number and line-start offset that hold after it. */
  function StepAt(src: string, pos: nat, line: int, lineStart: int): (r: (seq<Token>, nat, int, int))
    requires pos < |src|
    ensures pos < r.1 <= |src| && |r.0| <= 1
  {
    var (rule, e) := MatchAt(src, pos);
    var col := pos - lineStart + 1;
    match rule
    case Newline => ([Token(NEWLINE, "\\n", line, col)], e, line + 1, e)
    case Comment => ([], e, line, lineStart)
    case Skip => ([], e, line, lineStart)
    case StringLit => ([Token(STRING, Unescape(src[pos + 1..e - 1]), line, col)], e, line, lineStart)
    case _ => ([Token(KindOf(rule, src[pos..e]), src[pos..e], line, col)], e, line, lineStart)
  }

  /** The tokens of `src[pos..]`, given the current line number and the offset where
      the current line starts; always ends with the EOF token. */
  function Tokenize(src: string, pos: nat, line: int, lineStart: int): seq<Token>
    requires pos <= |src|
    decreases |src| - pos
  {
    if pos == |src| then [Token(EOF, "", line, 1)]
    else
      var (toks, e, line', lineStart') := StepAt(src, pos, line, lineStart);
      toks + Tokenize(src, e, line', lineStart')
  }

  /** `Lexer(src)`: the whole token stream of a source text. */
  function TokenStream(src: string): seq<Token>
  {
    Tokenize(src, 0, 1, 0)
  }

  lemma AppendAssoc<T>(a: seq<T>, b: seq<T>, c: seq<T>)
    ensures (a + b) + c == a + (b + c)
  {
  }

  /** The scanner loop of `Lexer(src)`: one match per iteration, appending to `tokens` and
      advancing the line counters; its result is the token stream `TokenStream(src)`. */
  method Lex(src: string) returns (tokens: seq<Token>)
    ensures tokens == TokenStream(src)
  {
    tokens := [];
    var line := 1;
    var lineStart := 0;
    var pos := 0;
    while pos < |src|
      invariant pos <= |src|
      invariant tokens + Tokenize(src, pos, line, lineStart) == TokenStream(src)
      decreases |src| - pos
    {
      ghost var step := StepAt(src, pos, line, lineStart);
      ghost var before := tokens;
      var emitted, e, line', lineStart' := MatchTokens(src, pos, line, lineStart);
      tokens := tokens + emitted;
      pos, line, lineStart := e, line', lineStart';
      AppendAssoc(before, step.0, Tokenize(src, pos, line, lineStart));
    }
    tokens := tokens + [Token(EOF, "", line, 1)];
  }

  /** The body of the scanner loop for the match at `pos`: what it appends to `tokens`
      and the line counters afterwards. */
  method MatchTokens(src: string, pos: nat, line: int, lineStart: int)
    returns (emitted: seq<Token>, e: nat, line': int, lineStart': int)
    requires pos < |src|
    ensures (emitted, e, line', lineStart') == StepAt(src, pos, line, lineStart)
  {
    var kind;
    kind, e := MatchAt(src, pos).0, MatchAt(src, pos).1;
    var col := pos - lineStart + 1;
    var val := src[pos..e];
    line', lineStart' := line, lineStart;
    if kind == Newline {
      emitted := [Token(NEWLINE, "\\n", line, col)];
      line' := line + 1;
      lineStart' := e;
    } else if kind == Skip || kind == Comment {
      emitted := [];
    } else if kind == Ident && val in Keywords {
      emitted := [Token(KEYWORD, val, line, col)];
    } else if kind == StringLit {
      var inner := val[1..|val| - 1];
      QuotedInner(src, pos, e);
      emitted := [Token(STRING, Unescape(inner), line, col)];
    } else {
      emitted := [Token(KindOf(kind, val), val, line, col)];
    }
  }

  /** Dropping the quotes from the lexeme `src[pos..e]` leaves `src[pos + 1..e - 1]`. */
  lemma QuotedInner(src: string, pos: nat, e: nat)
    requires pos + 2 <= e <= |src|
    ensures src[pos..e][1..e - pos - 1] == src[pos + 1..e - 1]
  {
    var inner := src[pos..e][1..e - pos - 1];
    assert forall k :: 0 <= k < |inner| ==> inner[k] == src[pos + 1 + k];
  }

  // ---------------------------------------------------------------------------
  // Properties of the token stream

  function NewlineCount(ts: seq<Token>): nat
  {
    if ts == [] then 0 else (if ts[0].kind == NEWLINE then 1 else 0) + NewlineCount(ts[1..])
  }

  lemma {:induction false} NewlineCountAppend(a: seq<Token>, b: seq<Token>)
    ensures NewlineCount(a + b) == NewlineCount(a) + NewlineCount(b)
  {
    if a == [] {
      assert a + b == b;
    } else {
      assert (a + b)[1..] == a[1..] + b;
      NewlineCountAppend(a[1..], b);
    }
  }

  /** What the lexer guarantees of each token it emits: the kind agrees with the lexeme
      and positions are 1-based. */
  predicate WellFormedToken(t: Token)
  {
    && t.line >= 1 && t.col >= 1
    && match t.kind
       case NEWLINE => t.value == "\\n"
       case KEYWORD => t.value in Keywords
       case IDENT => IsIdentifier(t.value) && t.value !in Keywords
       case NUMBER => IsNumberLexeme(t.value)
       case STRING => true
       case OP => t.value in OpLexemes
       case LPAREN => t.value == "("
       case RPAREN => t.value == ")"
       case COMMA => t.value == ","
       case COLON => t.value == ":"
       case UNKNOWN => |t.value| == 1 && t.value[0] != '\n'
       case EOF => t.value == "" && t.col == 1
  }

  lemma StepTokensWellFormed(src: string, pos: nat, line: int, lineStart: int)
    requires pos < |src| && line >= 1 && lineStart <= pos
    ensures var r := StepAt(src, pos, line, lineStart);
      && r.3 <= r.1 && r.2 >= 1
      && (forall k :: 0 <= k < |r.0| ==> WellFormedToken(r.0[k]) && r.0[k].kind != EOF)
      && r.2 == line + NewlineCount(r.0)
  {
    var (rule, e) := MatchAt(src, pos);
    if rule == Unknown {
      assert src[pos..e] == [src[pos]];
    } else if rule == LParen {
      assert src[pos..e] == "(";
    } else if rule == RParen {
      assert src[pos..e] == ")";
    } else if rule == Comma {
      assert src[pos..e] == ",";
    } else if rule == Colon {
      assert src[pos..e] == ":";
    }
  }

  /** Every token of the stream is well formed; the stream ends with exactly one EOF
      token, whose line is one more than the number of NEWLINE tokens before it
      (counting from the starting line) and whose column is 1. */
  lemma {:induction false} TokenizeShape(src: string, pos: nat, line: int, lineStart: int)
    requires pos <= |src| && line >= 1 && lineStart <= pos
    ensures var ts := Tokenize(src, pos, line, lineStart);
      && |ts| >= 1
      && ts[|ts| - 1] == Token(EOF, "", line + NewlineCount(ts[..|ts| - 1]), 1)
      && (forall k :: 0 <= k < |ts| - 1 ==> ts[k].kind != EOF)
      && (forall k :: 0 <= k < |ts| ==> WellFormedToken(ts[k]))
    decreases |src| - pos
  {
    var ts := Tokenize(src, pos, line, lineStart);
    if pos < |src| {
      var (toks, e, line', lineStart') := StepAt(src, pos, line, lineStart);
      StepTokensWellFormed(src, pos, line, lineStart);
      TokenizeShape(src, e, line', lineStart');
      var rest := Tokenize(src, e, line', lineStart');
      assert ts == toks + rest;
      assert ts[..|ts| - 1] == toks + rest[..|rest| - 1];
      NewlineCountAppend(toks, rest[..|rest| - 1]);
      WellFormedCons(toks, rest);
    }
  }

  /** Well-formed tokens, none of them EOF, put in front of a stream whose tokens are
      well formed and whose only EOF is the last. */
  lemma WellFormedCons(toks: seq<Token>, rest: seq<Token>)
    requires forall k :: 0 <= k < |toks| ==> WellFormedToken(toks[k]) && toks[k].kind != EOF
    requires forall k :: 0 <= k < |rest| - 1 ==> rest[k].kind != EOF
    requires forall k :: 0 <= k < |rest| ==> WellFormedToken(rest[k])
    ensures var ts := toks + rest;
      && (forall k :: 0 <= k < |ts| - 1 ==> ts[k].kind != EOF)
      && (forall k :: 0 <= k < |ts| ==> WellFormedToken(ts[k]))
  {
    var ts := toks + rest;
    forall k | 0 <= k < |ts|
      ensures WellFormedToken(ts[k]) && (k < |ts| - 1 ==> ts[k].kind != EOF)
    {
      if k >= |toks| { assert ts[k] == rest[k - |toks|]; }
    }
  }

  /** `Lexer(src)` ends with exactly one EOF token, on the final line and at column 1;
      every other token is well formed and none is EOF; and every token before EOF
      carries the line and column of the offset where its match began. */
  lemma TokenStreamShape(src: string)
    ensures var ts := TokenStream(src);
      && |ts| >= 1
      && ts[|ts| - 1] == Token(EOF, "", 1 + NewlineCount(ts[..|ts| - 1]), 1)
      && (forall k :: 0 <= k < |ts| - 1 ==> ts[k].kind != EOF)
      && (forall k :: 0 <= k < |ts| ==> WellFormedToken(ts[k]))
      && Positioned(src, ts, TokenStarts(src, 0), 0, 1, 0)
  {
    TokenizeShape(src, 0, 1, 0);
    TokenPositions(src, 0, 1, 0);
  }

  // ---------------------------------------------------------------------------
  // Where the tokens start, and their line and column

  /** The offsets where the tokens of `Tokenize(src, pos, ..)` begin, EOF excepted:
      one for every match that is not a comment or a blank run. */
  function TokenStarts(src: string, pos: nat): seq<nat>
    requires pos <= |src|
    decreases |src| - pos
  {
    if pos == |src| then []
    else
      var (rule, e) := MatchAt(src, pos);
      (if rule == Comment || rule == Skip then [] else [pos]) + TokenStarts(src, e)
  }

  /** `line_start` as the scanner holds it when it reaches token `k`: just past the
      last NEWLINE token before it, or the starting value when there is none. */
  function LineStartBefore(ts: seq<Token>, starts: seq<nat>, k: nat, lineStart: int): int
    requires k <= |ts| && k <= |starts|
    decreases k
  {
    if k == 0 then lineStart
    else if ts[k - 1].kind == NEWLINE then starts[k - 1] + 1
    else LineStartBefore(ts, starts, k - 1, lineStart)
  }

  /** One match: it yields a token exactly when it is not a comment or a blank run; the
      token sits on the current line at column `pos - lineStart + 1`; it is a NEWLINE
      exactly at a line break, which advances the line and moves the line start past it. */
  lemma StepPosition(src: string, pos: nat, line: int, lineStart: int)
    requires pos < |src|
    ensures var r := StepAt(src, pos, line, lineStart);
      var rule := MatchAt(src, pos).0;
      && r.1 == MatchAt(src, pos).1
      && |r.0| == (if rule == Comment || rule == Skip then 0 else 1)
      && r.2 == line + NewlineCount(r.0)
      && (r.0 != [] ==>
           r.0[0].line == line && r.0[0].col == pos - lineStart + 1 &&
           (r.0[0].kind == NEWLINE <==> src[pos] == '\n'))
      && r.3 == (if r.0 != [] && r.0[0].kind == NEWLINE then pos + 1 else lineStart)
  {
  }

  /** Dropping a first token of at most one shifts `LineStartBefore` to the rest, with
      the line start that holds after that token. */
  lemma {:induction false} LineStartShift(pre: seq<Token>, rest: seq<Token>, spre: seq<nat>, srest: seq<nat>,
                                          j: nat, ls: int, ls': int)
    requires |pre| == |spre| <= 1 && j <= |rest| && j <= |srest|
    requires ls' == if pre != [] && pre[0].kind == NEWLINE then spre[0] + 1 else ls
    ensures LineStartBefore(pre + rest, spre + srest, |pre| + j, ls) == LineStartBefore(rest, srest, j, ls')
    decreases j
  {
    var ts, st := pre + rest, spre + srest;
    if j == 0 {
      if pre != [] {
        assert ts[0] == pre[0] && st[0] == spre[0];
      }
    } else {
      assert ts[|pre| + j - 1] == rest[j - 1] && st[|pre| + j - 1] == srest[j - 1];
      LineStartShift(pre, rest, spre, srest, j - 1, ls, ls');
    }
  }

  /** `ts` (ending with EOF) and the offsets `st` of its other tokens, scanned from
      offset `lo` on line `line` with the line starting at `lineStart`: every token but
      EOF starts at an offset of the source, in increasing order; it is a NEWLINE
      exactly when that offset holds a line break; its line is the starting line plus
      the NEWLINE tokens before it; and its column is its offset minus the line start
      plus one, where the line start is just past the last NEWLINE token before it. */
  predicate Positioned(src: string, ts: seq<Token>, st: seq<nat>, lo: nat, line: int, lineStart: int)
  {
    && |st| == |ts| - 1
    && (forall k :: 0 <= k < |st| ==> lo <= st[k] < |src|)
    && (forall k :: 0 <= k < |st| - 1 ==> st[k] < st[k + 1])
    && (forall k :: 0 <= k < |st| ==> (ts[k].kind == NEWLINE <==> src[st[k]] == '\n'))
    && (forall k :: 0 <= k < |st| ==> ts[k].line == line + NewlineCount(ts[..k]))
    && (forall k :: 0 <= k < |st| ==> ts[k].col == st[k] - LineStartBefore(ts, st, k, lineStart) + 1)
  }

  /** The facts a token after the first match keeps, once the first match's token (if
      any) is put in front. */
  lemma ShiftedToken(src: string, toks: seq<Token>, rest: seq<Token>, spre: seq<nat>, srest: seq<nat>,
                     pos: nat, e: nat, line: int, lineStart: int, line': int, lineStart': int, j: nat)
    requires Positioned(src, rest, srest, e, line', lineStart')
    requires pos < e && |toks| == |spre| <= 1 && j < |srest|
    requires line' == line + NewlineCount(toks)
    requires lineStart' == if toks != [] && toks[0].kind == NEWLINE then spre[0] + 1 else lineStart
    ensures var ts, st, k := toks + rest, spre + srest, |toks| + j;
      && pos <= st[k] < |src| && (ts[k].kind == NEWLINE <==> src[st[k]] == '\n')
      && ts[k].line == line + NewlineCount(ts[..k])
      && ts[k].col == st[k] - LineStartBefore(ts, st, k, lineStart) + 1
  {
    var ts, st, k := toks + rest, spre + srest, |toks| + j;
    assert ts[k] == rest[j] && st[k] == srest[j];
    assert ts[..k] == toks + rest[..j];
    NewlineCountAppend(toks, rest[..j]);
    LineStartShift(toks, rest, spre, srest, j, lineStart, lineStart');
  }

  /** The offsets stay increasing when the first match's offset is put in front. */
  lemma OrderedCons(spre: seq<nat>, srest: seq<nat>, pos: nat, e: nat)
    requires |spre| <= 1 && (spre != [] ==> spre[0] == pos) && pos < e
    requires forall k :: 0 <= k < |srest| ==> e <= srest[k]
    requires forall k :: 0 <= k < |srest| - 1 ==> srest[k] < srest[k + 1]
    ensures var st := spre + srest; forall k :: 0 <= k < |st| - 1 ==> st[k] < st[k + 1]
  {
    var st := spre + srest;
    forall k | 0 <= k < |st| - 1
      ensures st[k] < st[k + 1]
    {
      if k >= |spre| {
        assert st[k] == srest[k - |spre|] && st[k + 1] == srest[k + 1 - |spre|];
      }
    }
  }

  /** Putting the token of one match (or none) in front keeps the positions right. */
  lemma PositionedCons(src: string, toks: seq<Token>, rest: seq<Token>, spre: seq<nat>, srest: seq<nat>,
                       pos: nat, e: nat, line: int, lineStart: int, line': int, lineStart': int)
    requires Positioned(src, rest, srest, e, line', lineStart')
    requires pos < e && pos < |src| && |toks| == |spre| <= 1 && (spre != [] ==> spre[0] == pos)
    requires line' == line + NewlineCount(toks)
    requires toks != [] ==>
      toks[0].line == line && toks[0].col == pos - lineStart + 1 && (toks[0].kind == NEWLINE <==> src[pos] == '\n')
    requires lineStart' == if toks != [] && toks[0].kind == NEWLINE then pos + 1 else lineStart
    ensures Positioned(src, toks + rest, spre + srest, pos, line, lineStart)
  {
    TokensCons(src, toks, rest, spre, srest, pos, e, line, lineStart, line', lineStart');
    OrderedCons(spre, srest, pos, e);
  }

  lemma TokensCons(src: string, toks: seq<Token>, rest: seq<Token>, spre: seq<nat>, srest: seq<nat>,
                   pos: nat, e: nat, line: int, lineStart: int, line': int, lineStart': int)
    requires Positioned(src, rest, srest, e, line', lineStart')
    requires pos < e && pos < |src| && |toks| == |spre| <= 1 && (spre != [] ==> spre[0] == pos)
    requires line' == line + NewlineCount(toks)
    requires toks != [] ==>
      toks[0].line == line && toks[0].col == pos - lineStart + 1 && (toks[0].kind == NEWLINE <==> src[pos] == '\n')
    requires lineStart' == if toks != [] && toks[0].kind == NEWLINE then pos + 1 else lineStart
    ensures var ts, st := toks + rest, spre + srest;
      forall k :: 0 <= k < |st| ==>
        && pos <= st[k] < |src| && (ts[k].kind == NEWLINE <==> src[st[k]] == '\n')
        && ts[k].line == line + NewlineCount(ts[..k])
        && ts[k].col == st[k] - LineStartBefore(ts, st, k, lineStart) + 1
  {
    var ts, st := toks + rest, spre + srest;
    forall k | 0 <= k < |st|
      ensures pos <= st[k] < |src| && (ts[k].kind == NEWLINE <==> src[st[k]] == '\n')
      ensures ts[k].line == line + NewlineCount(ts[..k])
      ensures ts[k].col == st[k] - LineStartBefore(ts, st, k, lineStart) + 1
    {
      TokenCons(src, toks, rest, spre, srest, pos, e, line, lineStart, line', lineStart', k);
    }
  }

  /** The facts for the first match's own token, at the front of the concatenation. */
  lemma HeadToken(src: string, toks: seq<Token>, rest: seq<Token>, spre: seq<nat>, srest: seq<nat>,
                  pos: nat, line: int, lineStart: int)
    requires pos < |src| && |toks| == |spre| == 1 && spre[0] == pos
    requires toks[0].line == line && toks[0].col == pos - lineStart + 1 && (toks[0].kind == NEWLINE <==> src[pos] == '\n')
    ensures var ts, st := toks + rest, spre + srest;
      && pos <= st[0] < |src| && (ts[0].kind == NEWLINE <==> src[st[0]] == '\n')
      && ts[0].line == line + NewlineCount(ts[..0])
      && ts[0].col == st[0] - LineStartBefore(ts, st, 0, lineStart) + 1
  {
    var ts, st := toks + rest, spre + srest;
    assert ts[0] == toks[0] && st[0] == pos && ts[..0] == [];
  }

  /** The facts for one token of the concatenation: the first match's own token, or a shifted one. */
  lemma TokenCons(src: string, toks: seq<Token>, rest: seq<Token>, spre: seq<nat>, srest: seq<nat>,
                  pos: nat, e: nat, line: int, lineStart: int, line': int, lineStart': int, k: nat)
    requires Positioned(src, rest, srest, e, line', lineStart')
    requires pos < e && pos < |src| && |toks| == |spre| <= 1 && (spre != [] ==> spre[0] == pos)
    requires line' == line + NewlineCount(toks)
    requires toks != [] ==>
      toks[0].line == line && toks[0].col == pos - lineStart + 1 && (toks[0].kind == NEWLINE <==> src[pos] == '\n')
    requires lineStart' == if toks != [] && toks[0].kind == NEWLINE then pos + 1 else lineStart
    requires k < |spre + srest|
    ensures var ts, st := toks + rest, spre + srest;
      && pos <= st[k] < |src| && (ts[k].kind == NEWLINE <==> src[st[k]] == '\n')
      && ts[k].line == line + NewlineCount(ts[..k])
      && ts[k].col == st[k] - LineStartBefore(ts, st, k, lineStart) + 1
  {
    if k < |toks| {
      HeadToken(src, toks, rest, spre, srest, pos, line, lineStart);
    } else {
      ShiftedToken(src, toks, rest, spre, srest, pos, e, line, lineStart, line', lineStart', k - |toks|);
    }
  }

  /** The tokens of `src[pos..]` are positioned at the offsets `TokenStarts` gives. A
      line break inside a string literal is not a NEWLINE token, so it moves neither
      the line nor the line start. */
  lemma {:induction false} TokenPositions(src: string, pos: nat, line: int, lineStart: int)
    requires pos <= |src|
    ensures Positioned(src, Tokenize(src, pos, line, lineStart), TokenStarts(src, pos), pos, line, lineStart)
    decreases |src| - pos
  {
    if pos < |src| {
      var (toks, e, line', lineStart') := StepAt(src, pos, line, lineStart);
      StepPosition(src, pos, line, lineStart);
      TokenPositions(src, e, line', lineStart');
      var spre := if toks == [] then [] else [pos];
      assert Tokenize(src, pos, line, lineStart) == toks + Tokenize(src, e, line', lineStart');
      assert TokenStarts(src, pos) == spre + TokenStarts(src, e);
      PositionedCons(src, toks, Tokenize(src, e, line', lineStart'), spre, TokenStarts(src, e),
                     pos, e, line, lineStart, line', lineStart');
    }
  }

  /** An identifier lexeme becomes a KEYWORD token exactly when it is reserved. */
  lemma KeywordIffReserved(src: string, k: nat)
    requires k < |TokenStream(src)|
    requires TokenStream(src)[k].kind in {KEYWORD, IDENT}
    ensures TokenStream(src)[k].kind == KEYWORD <==> TokenStream(src)[k].value in Keywords
  {
    TokenStreamShape(src);
  }

  /** First match, not longest: at `--` the COMMENT alternative wins over OP, and the
      comment runs to the end of the line without producing a token. */
  lemma CommentWins(src: string, pos: nat, line: int, lineStart: int)
    requires pos + 1 < |src| && src[pos] == '-' && src[pos + 1] == '-'
    ensures MatchAt(src, pos) == (Comment, RunEnd(src, pos + 2, NotNewline))
    ensures Tokenize(src, pos, line, lineStart) == Tokenize(src, RunEnd(src, pos + 2, NotNewline), line, lineStart)
  {
  }

  /** `a--b` lexes to the identifier `a` and EOF: the rest of the line is a comment. */
  lemma CommentExample()
    ensures TokenStream("a--b") == [Token(IDENT, "a", 1, 1), Token(EOF, "", 1, 1)]
  {
    var src := "a--b";
    assert MatchAt(src, 0) == (Ident, 1) by {
      assert RunEnd(src, 1, IsIdentChar) == 1;
    }
    assert src[0..1] == "a";
    assert RunEnd(src, 3, NotNewline) == 4;
    assert Tokenize(src, 1, 1, 0) == Tokenize(src, 4, 1, 0);
  }

  /** Two-character operators win over their one-character prefixes, and the compound
      assignment forms are single OP tokens. */
  lemma TwoCharOperators(src: string, i: nat)
    requires i + 1 < |src| && src[i..i + 2] in {"==", "~=", "<=", ">=", "+=", "-=", "*=", "/=", "%="}
    ensures MatchAt(src, i) == (Op, i + 2)
  {
    assert src[i + 1] == '=' by { assert src[i..i + 2][1] == src[i + 1]; }
    assert src[i] in {'=', '~', '<', '>', '+', '-', '*', '/', '%'} by { assert src[i..i + 2][0] == src[i]; }
  }

  /** A `~` not followed by `=` is UNKNOWN. */
  lemma LoneTildeUnknown(src: string, i: nat)
    requires i < |src| && src[i] == '~' && (i + 1 == |src| || src[i + 1] != '=')
    ensures MatchAt(src, i) == (Unknown, i + 1)
  {
  }

  /** A `"` with no closing quote later on the scan is UNKNOWN: the scan resumes after it. */
  lemma UnterminatedQuoteUnknown(src: string, i: nat)
    requires i < |src| && src[i] == '"' && StringEnd(src, i + 1).None?
    ensures MatchAt(src, i) == (Unknown, i + 1)
  {
  }

  /** `str.replace` leaves a text unchanged when the pattern's second character does not
      occur in it. */
  lemma {:induction false} ReplaceAbsent(s: string, pat: string, rep: string)
    requires |pat| == 2 && forall k :: 0 <= k < |s| ==> s[k] != pat[1]
    ensures ReplaceAll(s, pat, rep) == s
    decreases |s|
  {
    if |s| >= 2 {
      assert s[..2] != pat by { assert s[..2][1] == s[1]; }
      ReplaceAbsent(s[1..], pat, rep);
    }
  }

  /** ... and when the pattern's first character does not occur in it. */
  lemma {:induction false} ReplaceWithoutLead(s: string, pat: string, rep: string)
    requires |pat| == 2 && forall k :: 0 <= k < |s| ==> s[k] != pat[0]
    ensures ReplaceAll(s, pat, rep) == s
    decreases |s|
  {
    if |s| >= 2 {
      assert s[..2] != pat by { assert s[..2][0] == s[0]; }
      ReplaceWithoutLead(s[1..], pat, rep);
    }
  }

  /** Replacing two characters by one never lengthens a text, and the text keeps its
      length exactly when nothing was replaced. */
  lemma {:induction false} ReplaceShortens(s: string, pat: string, rep: string)
    requires |pat| == 2 && |rep| == 1
    ensures |ReplaceAll(s, pat, rep)| <= |s|
    ensures |ReplaceAll(s, pat, rep)| == |s| <==> ReplaceAll(s, pat, rep) == s
    decreases |s|
  {
    if |s| >= 2 {
      if s[..2] == pat {
        ReplaceShortens(s[2..], pat, rep);
      } else {
        ReplaceShortens(s[1..], pat, rep);
        assert s == [s[0]] + s[1..];
      }
    }
  }

  /** Unescaping never lengthens the text between the quotes, and leaves it unchanged
      when it holds no backslash. */
  lemma UnescapeShortens(inner: string)
    ensures |Unescape(inner)| <= |inner|
    ensures (forall k :: 0 <= k < |inner| ==> inner[k] != '\\') ==> Unescape(inner) == inner
  {
    var a := ReplaceAll(inner, "\\\"", "\"");
    var b := ReplaceAll(a, "\\\\", "\\");
    ReplaceShortens(inner, "\\\"", "\"");
    ReplaceShortens(a, "\\\\", "\\");
    ReplaceShortens(b, "\\n", "\n");
    if forall k :: 0 <= k < |inner| ==> inner[k] != '\\' {
      ReplaceWithoutLead(inner, "\\\"", "\"");
      ReplaceWithoutLead(inner, "\\\\", "\\");
      ReplaceWithoutLead(inner, "\\n", "\n");
    }
  }

  /** An escaped quote is undone. */
  lemma UnescapeQuote()
    ensures Unescape("a\\\"b") == "a\"b"
  {
    assert ReplaceAll("a\\\"b", "\\\"", "\"") == "a\"b" by {
      assert ReplaceAll("a\\\"b", "\\\"", "\"") == "a" + ReplaceAll("\\\"b", "\\\"", "\"");
      assert ReplaceAll("\\\"b", "\\\"", "\"") == "\"" + ReplaceAll("b", "\\\"", "\"");
    }
    ReplaceAbsent("a\"b", "\\\\", "\\");
    ReplaceAbsent("a\"b", "\\n", "\n");
  }

  /** An escaped backslash is undone. */
  lemma UnescapeBackslash()
    ensures Unescape("a\\\\b") == "a\\b"
  {
    ReplaceAbsent("a\\\\b", "\\\"", "\"");
    assert ReplaceAll("a\\\\b", "\\\\", "\\") == "a\\b" by {
      assert ReplaceAll("a\\\\b", "\\\\", "\\") == "a" + ReplaceAll("\\\\b", "\\\\", "\\");
      assert ReplaceAll("\\\\b", "\\\\", "\\") == "\\" + ReplaceAll("b", "\\\\", "\\");
    }
    ReplaceAbsent("a\\b", "\\n", "\n");
  }

  /** An escaped `n` becomes a newline. */
  lemma UnescapeNewline()
    ensures Unescape("a\\nb") == "a\nb"
  {
    ReplaceAbsent("a\\nb", "\\\"", "\"");
    assert ReplaceAll("a\\nb", "\\\\", "\\") == "a\\nb" by {
      assert ReplaceAll("a\\nb", "\\\\", "\\") == "a" + ReplaceAll("\\nb", "\\\\", "\\");
      assert ReplaceAll("\\nb", "\\\\", "\\") == "\\" + ReplaceAll("nb", "\\\\", "\\");
      ReplaceAbsent("nb", "\\\\", "\\");
    }
    assert ReplaceAll("a\\nb", "\\n", "\n") == "a\nb" by {
      assert ReplaceAll("a\\nb", "\\n", "\n") == "a" + ReplaceAll("\\nb", "\\n", "\n");
      assert ReplaceAll("\\nb", "\\n", "\n") == "\n" + ReplaceAll("b", "\\n", "\n");
    }
  }

  /** Any other escape, such as backslash-`t`, stays literal. */
  lemma UnescapeOtherLiteral()
    ensures Unescape("a\\tb") == "a\\tb"
  {
    ReplaceAbsent("a\\tb", "\\\"", "\"");
    assert ReplaceAll("a\\tb", "\\\\", "\\") == "a\\tb" by {
      assert ReplaceAll("a\\tb", "\\\\", "\\") == "a" + ReplaceAll("\\tb", "\\\\", "\\");
      assert ReplaceAll("\\tb", "\\\\", "\\") == "\\" + ReplaceAll("tb", "\\\\", "\\");
      ReplaceAbsent("tb", "\\\\", "\\");
    }
    ReplaceAbsent("a\\tb", "\\n", "\n");
  }

  /** The replacements run one after another, so an escaped backslash followed by `n`
      (backslash, backslash, `n` inside the quotes) ends up as a newline, not as a
      backslash and an `n`. */
  lemma UnescapeSequential()
    ensures Unescape("\\\\n") == "\n"
  {
    ReplaceAbsent("\\\\n", "\\\"", "\"");
    assert ReplaceAll("\\\\n", "\\\\", "\\") == "\\n" by {
      assert ReplaceAll("\\\\n", "\\\\", "\\") == "\\" + ReplaceAll("n", "\\\\", "\\");
    }
    assert ReplaceAll("\\n", "\\n", "\n") == "\n" + ReplaceAll("", "\\n", "\n");
  }
}
