/**
 * The recursive-descent parser: every routine takes the token list and a
 * cursor `p` and returns what it built together with the new cursor.
 * Nothing aborts: a malformed statement is dropped (`None`) or its leading
 * token skipped, and parsing carries on.  Termination rests on two facts:
 * the cursor never passes the end of the list, and a statement parsed at
 * a non-EOF position consumes at least one token.
 */
module Parser {
  import opened Wrappers
  import opened Text
  import opened Tokens
  import opened Ast

  // ---------------------------------------------------------------- cursor

  /** `peek`: the token under the cursor; past the list, a synthetic EOF. */
  function Peek(toks: seq<Token>, p: nat): (t: Token)
    ensures p >= |toks| ==> t.kind == Eof
    ensures p < |toks| ==> t == toks[p]
  {
    if p >= |toks| then Token(Eof, "", |toks|) else toks[p]
  }

  /** `isAtEnd`. */
  predicate AtEnd(toks: seq<Token>, p: nat) {
    Peek(toks, p).kind == Eof
  }

  /** `advance`: step over the current token, but never over EOF. */
  function Advance(toks: seq<Token>, p: nat): (q: nat)
    requires p <= |toks|
    ensures q <= |toks|
    ensures AtEnd(toks, p) ==> q == p
    ensures !AtEnd(toks, p) ==> q == p + 1
  {
    if AtEnd(toks, p) then p else p + 1
  }

  /** `check`. */
  predicate Check(toks: seq<Token>, p: nat, kind: TokenType) {
    !AtEnd(toks, p) && Peek(toks, p).kind == kind
  }

  /** `checkSymbol`. */
  predicate CheckSymbol(toks: seq<Token>, p: nat, s: string) {
    !AtEnd(toks, p) && Peek(toks, p).kind == Symbol && Peek(toks, p).text == s
  }

  /** `checkKeyword`: keyword tokens compared ignoring case. */
  predicate CheckKeyword(toks: seq<Token>, p: nat, kw: string) {
    !AtEnd(toks, p) && Peek(toks, p).kind == Keyword && EqualsIgnoreCase(Peek(toks, p).text, kw)
  }

  /** `lookAhead(1)`: the next token, which may be EOF, or absent past the list. */
  function LookAhead(toks: seq<Token>, p: nat): (r: Option<Token>)
    ensures r.Some? <==> p + 1 < |toks|
    ensures r.Some? ==> r.value == toks[p + 1]
  {
    if p + 1 >= |toks| then None else Some(toks[p + 1])
  }

  /** Whether the token after the cursor is the SYMBOL `s`. */
  predicate NextIsSymbol(toks: seq<Token>, p: nat, s: string) {
    var next := LookAhead(toks, p);
    next.Some? && next.value.kind == Symbol && next.value.text == s
  }

  /** A block boundary: a keyword whose lower-cased text is one of `bounds`. */
  predicate IsBoundary(t: Token, bounds: seq<string>) {
    t.kind == Keyword && Lower(t.text) in bounds
  }

  // ------------------------------------------------------ shape of the AST

  /** Facts every statement the parser builds satisfies: each condition uses
      `=`, and a `global` names at least one variable. */
  predicate StmtOk(s: Stmt) {
    match s
    case Global(names) => names != []
    case If(c, t, e) =>
      && c.op == "="
      && (forall k :: 0 <= k < |t| ==> StmtOk(t[k]))
      && (forall k :: 0 <= k < |e| ==> StmtOk(e[k]))
    case While(c, body) => c.op == "=" && forall k :: 0 <= k < |body| ==> StmtOk(body[k])
    case Declare(d) => forall k :: 0 <= k < |d.body| ==> StmtOk(d.body[k])
    case Switch(_, cases) => forall k :: 0 <= k < |cases| ==> CaseOk(cases[k])
    case _ => true
  }

  predicate CaseOk(c: CaseBlock) {
    forall k :: 0 <= k < |c.body| ==> StmtOk(c.body[k])
  }

  predicate AllOk(ss: seq<Stmt>) {
    forall k :: 0 <= k < |ss| ==> StmtOk(ss[k])
  }

  // ----------------------------------------------------------- expressions

  /** `parseExpression`: a call, a variable or a literal; anything else is
      absent and consumes nothing. */
  function ParseExpression(toks: seq<Token>, p: nat): (r: (Option<Expr>, nat))
    requires p <= |toks|
    ensures p <= r.1 <= |toks|
    ensures r.0.Some? ==> r.1 > p
    ensures Peek(toks, p).kind !in {Identifier, StringLit, Number, Boolean} ==> r == (None, p)
    ensures Peek(toks, p).kind in {StringLit, Number, Boolean} ==>
              r == (Some(Literal(Peek(toks, p).kind, Peek(toks, p).text)), p + 1)
    ensures Peek(toks, p).kind == Identifier && !NextIsSymbol(toks, p, "(") ==>
              r == (Some(Variable(Peek(toks, p).text)), p + 1)
    ensures Peek(toks, p).kind == Identifier && NextIsSymbol(toks, p, "(") ==>
              r.0.None? || (r.0.value.Call? && r.0.value.name == Peek(toks, p).text)
    decreases |toks| - p, 1
  {
    var tk := Peek(toks, p);
    if tk.kind == Identifier then
      if NextIsSymbol(toks, p, "(") then ParseCallExpression(toks, p)
      else (Some(Variable(tk.text)), Advance(toks, p))
    else if tk.kind == StringLit || tk.kind == Number || tk.kind == Boolean then
      (Some(Literal(tk.kind, tk.text)), Advance(toks, p))
    else
      (None, p)
  }

  /** `parseFunctionCallExpression`: `name ( args )`; without the closing
      parenthesis the call is absent. */
  function ParseCallExpression(toks: seq<Token>, p: nat): (r: (Option<Expr>, nat))
    requires p <= |toks| && Peek(toks, p).kind == Identifier
    ensures p < r.1 <= |toks|
    ensures r.0.Some? ==> r.0.value.Call? && r.0.value.name == toks[p].text
    ensures r.0.Some? ==> r.1 >= 1 && CheckSymbol(toks, r.1 - 1, ")")
    decreases |toks| - p, 0
  {
    var name := toks[p].text;
    var q := Advance(toks, p);
    if !CheckSymbol(toks, q, "(") then (None, q)
    else
      var (args, q2) := ParseCallArguments(toks, q + 1);
      if CheckSymbol(toks, q2, ")") then (Some(Call(name, args)), q2 + 1) else (None, q2)
  }

  /** The argument loop of a call expression: an unparsable argument is
      skipped, and the loop goes on only after a comma. */
  function ParseCallArguments(toks: seq<Token>, p: nat): (r: (seq<Expr>, nat))
    requires p <= |toks|
    ensures p <= r.1 <= |toks|
    decreases |toks| - p, 2
  {
    if AtEnd(toks, p) || CheckSymbol(toks, p, ")") then ([], p)
    else
      var (arg, q) := ParseExpression(toks, p);
      if CheckSymbol(toks, q, ",") then
        var (rest, q2) := ParseCallArguments(toks, q + 1);
        (arg.ToSeq() + rest, q2)
      else
        (arg.ToSeq(), q)
  }

  /** `parseCondition`: `expr = expr`, the operator always `=`; a side that
      cannot be parsed is kept as absent. */
  function ParseCondition(toks: seq<Token>, p: nat): (r: (Condition, nat))
    requires p <= |toks|
    ensures p <= r.1 <= |toks|
    ensures r.0.op == "="
    ensures r.0.left.None? ==> r.0.right.None?
    decreases |toks| - p, 2
  {
    var (left, q) := ParseExpression(toks, p);
    if left.None? then (Condition(None, "=", None), q)
    else if CheckSymbol(toks, q, "=") then
      var (right, q2) := ParseExpression(toks, q + 1);
      (Condition(left, "=", right), q2)
    else
      (Condition(left, "=", None), q)
  }

  // ------------------------------------------------------------ statements

  /** `parse`: statements until EOF, dropping the ones that failed. */
  function Parse(toks: seq<Token>): (ss: seq<Stmt>)
    ensures AllOk(ss)
  {
    ParseProgram(toks, 0)
  }

  function ParseProgram(toks: seq<Token>, p: nat): (ss: seq<Stmt>)
    requires p <= |toks|
    ensures AllOk(ss)
    decreases |toks| - p
  {
    if AtEnd(toks, p) then []
    else
      var (s, q) := ParseStatement(toks, p);
      s.ToSeq() + ParseProgram(toks, q)
  }

  /** `parseStatement`: dispatch on the leading token. */
  function ParseStatement(toks: seq<Token>, p: nat): (r: (Option<Stmt>, nat))
    requires p <= |toks|
    ensures p <= r.1 <= |toks|
    ensures !AtEnd(toks, p) ==> r.1 > p
    ensures AtEnd(toks, p) ==> r == (None, p)
    ensures r.0.Some? ==> StmtOk(r.0.value)
    decreases |toks| - p, 4
  {
    var tk := Peek(toks, p);
    if tk.kind == Keyword then
      if tk.text == "code" then ParseFunctionDeclaration(toks, p)
      else if tk.text == "global" then ParseGlobal(toks, p)
      else if tk.text == "local" then ParseLocal(toks, p)
      else if tk.text == "exitcode" then (Some(ExitCode), Advance(toks, p))
      else if tk.text == "if" then ParseIf(toks, p)
      else if tk.text == "switch" then ParseSwitch(toks, p)
      else if tk.text == "while" then ParseWhile(toks, p)
      else if tk.text == "return" then ParseReturn(toks, p)
      else (None, Advance(toks, p))   // unknown keyword: skip it
    else if tk.kind == Identifier then
      if NextIsSymbol(toks, p, "=") then ParseAssignment(toks, p)
      else ParseCallStatement(toks, p)
    else
      (None, Advance(toks, p))         // NEWLINE or an unexpected token
  }

  /** `parseReturnStatement`: the value is optional. */
  function ParseReturn(toks: seq<Token>, p: nat): (r: (Option<Stmt>, nat))
    requires p < |toks| && !AtEnd(toks, p)
    ensures p < r.1 <= |toks|
    ensures r.0.Some? && r.0.value.Return?
    decreases |toks| - p, 3
  {
    var (value, q) := ParseExpression(toks, p + 1);
    (Some(Return(value)), q)
  }

  /** `parseAssignmentStatement`: `name = expr`; no right-hand side, no statement. */
  function ParseAssignment(toks: seq<Token>, p: nat): (r: (Option<Stmt>, nat))
    requires p < |toks| && !AtEnd(toks, p)
    ensures p < r.1 <= |toks|
    ensures r.0.Some? ==> r.0.value.Assign? && r.0.value.name == toks[p].text
    decreases |toks| - p, 3
  {
    var q := p + 1;
    if !CheckSymbol(toks, q, "=") then (None, q)
    else
      var (rhs, q2) := ParseExpression(toks, q + 1);
      if rhs.None? then (None, q2) else (Some(Assign(toks[p].text, rhs.value)), q2)
  }

  /** `parseFunctionCallStatement`: `name ( args )` with both parentheses
      required; an unparsable argument ends the argument list. */
  function ParseCallStatement(toks: seq<Token>, p: nat): (r: (Option<Stmt>, nat))
    requires p < |toks| && !AtEnd(toks, p)
    ensures p < r.1 <= |toks|
    ensures r.0.Some? ==> r.0.value.CallStmt? && r.0.value.callee == toks[p].text
    ensures r.0.Some? ==> CheckSymbol(toks, p + 1, "(") && CheckSymbol(toks, r.1 - 1, ")")
    decreases |toks| - p, 3
  {
    var q := p + 1;
    if !CheckSymbol(toks, q, "(") then (None, q)
    else
      var (args, q2) := ParseStatementArguments(toks, q + 1);
      if CheckSymbol(toks, q2, ")") then (Some(CallStmt(toks[p].text, args)), q2 + 1)
      else (None, q2)
  }

  function ParseStatementArguments(toks: seq<Token>, p: nat): (r: (seq<Expr>, nat))
    requires p <= |toks|
    ensures p <= r.1 <= |toks|
    decreases |toks| - p, 2
  {
    if CheckSymbol(toks, p, ")") || AtEnd(toks, p) then ([], p)
    else
      var (arg, q) := ParseExpression(toks, p);
      if arg.None? then ([], q)
      else if CheckSymbol(toks, q, ",") then
        var (rest, q2) := ParseStatementArguments(toks, q + 1);
        ([arg.value] + rest, q2)
      else
        ([arg.value], q)
  }

  /** `parseFunctionDeclarationStatement`: `code name [ (params) ] body endcode`. */
  function ParseFunctionDeclaration(toks: seq<Token>, p: nat): (r: (Option<Stmt>, nat))
    requires p < |toks| && !AtEnd(toks, p)
    ensures p < r.1 <= |toks|
    ensures r.0.Some? ==> r.0.value.Declare? && StmtOk(r.0.value)
    ensures r.0.Some? ==> CheckKeyword(toks, r.1 - 1, "endcode")
    ensures r.0.None? ==> AtEnd(toks, r.1) || !Check(toks, p + 1, Identifier)
    decreases |toks| - p, 3
  {
    var q := p + 1;
    if !Check(toks, q, Identifier) then (None, q)
    else
      var (params, q2) := ParseParameterListIfAny(toks, q + 1);
      var (body, q3) := ParseBlock(toks, q2, ["endcode"]);
      if CheckKeyword(toks, q3, "endcode") then
        (Some(Declare(FunctionDecl(toks[q].text, params, body))), q3 + 1)
      else
        (None, q3)
  }

  /** `parseGlobalStatement`: at least one name, or no statement. */
  function ParseGlobal(toks: seq<Token>, p: nat): (r: (Option<Stmt>, nat))
    requires p < |toks| && !AtEnd(toks, p)
    ensures p < r.1 <= |toks|
    ensures r.0.Some? ==> r.0.value.Global? && r.0.value.globals != []
    decreases |toks| - p, 3
  {
    var (names, q) := ParseNames(toks, p + 1);
    if names == [] then (None, q) else (Some(Global(names)), q)
  }

  /** `parseLocalStatement`: any number of names, none included. */
  function ParseLocal(toks: seq<Token>, p: nat): (r: (Option<Stmt>, nat))
    requires p < |toks| && !AtEnd(toks, p)
    ensures p < r.1 <= |toks|
    ensures r.0.Some? && r.0.value.Local?
    decreases |toks| - p, 3
  {
    var (names, q) := ParseNames(toks, p + 1);
    (Some(Local(names)), q)
  }

  /** The identifier texts among `ts`, in order. */
  function Identifiers(ts: seq<Token>): seq<string> {
    if ts == [] then []
    else (if ts[0].kind == Identifier then [ts[0].text] else []) + Identifiers(ts[1..])
  }

  /** A token a declaration's name list may contain. */
  predicate IsNameListToken(t: Token) {
    t.kind == Identifier || (t.kind == Symbol && t.text == ",")
  }

  /** The name loop shared by `global` and `local`: identifiers and commas,
      until the first token that is neither. */
  function ParseNames(toks: seq<Token>, p: nat): (r: (seq<string>, nat))
    requires p <= |toks|
    ensures p <= r.1 <= |toks|
    ensures forall k :: p <= k < r.1 ==> IsNameListToken(toks[k])
    ensures !Check(toks, r.1, Identifier) && !CheckSymbol(toks, r.1, ",")
    ensures r.0 == Identifiers(toks[p..r.1])
    decreases |toks| - p
  {
    if Check(toks, p, Identifier) then
      var (rest, q) := ParseNames(toks, p + 1);
      assert toks[p..q] == [toks[p]] + toks[p + 1..q];
      ([toks[p].text] + rest, q)
    else if CheckSymbol(toks, p, ",") then
      var (rest, q) := ParseNames(toks, p + 1);
      assert toks[p..q] == [toks[p]] + toks[p + 1..q];
      (rest, q)
    else
      ([], p)
  }

  /** `parseParameterListIfAny`: no `(`, no parameters. */
  function ParseParameterListIfAny(toks: seq<Token>, p: nat): (r: (seq<string>, nat))
    requires p <= |toks|
    ensures p <= r.1 <= |toks|
    ensures !CheckSymbol(toks, p, "(") ==> r == ([], p)
    decreases |toks| - p
  {
    if !CheckSymbol(toks, p, "(") then ([], p)
    else
      var (params, q) := ParseParameters(toks, p + 1);
      if CheckSymbol(toks, q, ")") then (params, q + 1) else (params, q)
  }

  /** The parameter loop: a non-identifier is reported but not consumed, and
      the loop goes on only after a comma. */
  function ParseParameters(toks: seq<Token>, p: nat): (r: (seq<string>, nat))
    requires p <= |toks|
    ensures p <= r.1 <= |toks|
    decreases |toks| - p
  {
    if AtEnd(toks, p) || CheckSymbol(toks, p, ")") then ([], p)
    else
      var first := if Check(toks, p, Identifier) then [toks[p].text] else [];
      var q := if Check(toks, p, Identifier) then p + 1 else p;
      if CheckSymbol(toks, q, ",") then
        var (rest, q2) := ParseParameters(toks, q + 1);
        (first + rest, q2)
      else
        (first, q)
  }

  /** `parseIfStatement`: `if cond then-block [else else-block] endif`. */
  function ParseIf(toks: seq<Token>, p: nat): (r: (Option<Stmt>, nat))
    requires p < |toks| && !AtEnd(toks, p)
    ensures p < r.1 <= |toks|
    ensures r.0.Some? ==> r.0.value.If? && StmtOk(r.0.value)
    ensures r.0.Some? ==> CheckKeyword(toks, r.1 - 1, "endif")
    ensures r.0.None? ==> AtEnd(toks, r.1)
    decreases |toks| - p, 3
  {
    var (cond, q) := ParseCondition(toks, p + 1);
    var (thenBody, q2) := ParseBlock(toks, q, ["else", "endif"]);
    var (elseBody, q3) := ParseElse(toks, q2);
    if CheckKeyword(toks, q3, "endif") then (Some(If(cond, thenBody, elseBody)), q3 + 1)
    else (None, q3)
  }

  /** The optional `else` part of an `if`: without the keyword it is empty
      and consumes nothing. */
  function ParseElse(toks: seq<Token>, p: nat): (r: (seq<Stmt>, nat))
    requires p <= |toks|
    ensures p <= r.1 <= |toks|
    ensures AllOk(r.0)
    ensures !CheckKeyword(toks, p, "else") ==> r == ([], p)
    ensures r.0 != [] ==> CheckKeyword(toks, p, "else")
    ensures AtEnd(toks, r.1) || IsBoundary(Peek(toks, r.1), ["endif"]) || r.1 == p
    decreases |toks| - p, 6
  {
    if CheckKeyword(toks, p, "else") then ParseBlock(toks, p + 1, ["endif"]) else ([], p)
  }

  /** `parseWhileStatement`: `while cond body endwhile`. */
  function ParseWhile(toks: seq<Token>, p: nat): (r: (Option<Stmt>, nat))
    requires p < |toks| && !AtEnd(toks, p)
    ensures p < r.1 <= |toks|
    ensures r.0.Some? ==> r.0.value.While? && StmtOk(r.0.value)
    ensures r.0.Some? ==> CheckKeyword(toks, r.1 - 1, "endwhile")
    ensures r.0.None? ==> AtEnd(toks, r.1)
    decreases |toks| - p, 3
  {
    var (cond, q) := ParseCondition(toks, p + 1);
    var (body, q2) := ParseBlock(toks, q, ["endwhile"]);
    if CheckKeyword(toks, q2, "endwhile") then (Some(While(cond, body)), q2 + 1)
    else (None, q2)
  }

  /** `parseSwitchStatement`: `switch expr (case ...)* endswitch`. */
  function ParseSwitch(toks: seq<Token>, p: nat): (r: (Option<Stmt>, nat))
    requires p < |toks| && !AtEnd(toks, p)
    ensures p < r.1 <= |toks|
    ensures r.0.Some? ==> r.0.value.Switch? && StmtOk(r.0.value)
    ensures r.0.Some? ==> CheckKeyword(toks, r.1 - 1, "endswitch")
    ensures r.0.None? ==> AtEnd(toks, r.1) || ParseExpression(toks, p + 1).0.None?
    decreases |toks| - p, 3
  {
    var (selector, q) := ParseExpression(toks, p + 1);
    if selector.None? then (None, q)
    else
      var (cases, q2) := ParseCases(toks, q);
      if CheckKeyword(toks, q2, "endswitch") then (Some(Switch(selector.value, cases)), q2 + 1)
      else (None, q2)
  }

  /** The case loop of `parseSwitchStatement`: stops at `endswitch`, parses a
      block at each `case`, and skips any other token. */
  function ParseCases(toks: seq<Token>, p: nat): (r: (seq<CaseBlock>, nat))
    requires p <= |toks|
    ensures p <= r.1 <= |toks|
    ensures forall k :: 0 <= k < |r.0| ==> CaseOk(r.0[k])
    ensures AtEnd(toks, r.1) || CheckKeyword(toks, r.1, "endswitch")
    decreases |toks| - p, 4
  {
    if AtEnd(toks, p) || CheckKeyword(toks, p, "endswitch") then ([], p)
    else if CheckKeyword(toks, p, "case") then
      var (block, q) := ParseCaseBlock(toks, p);
      var (rest, q2) := ParseCases(toks, q);
      (block.ToSeq() + rest, q2)
    else
      ParseCases(toks, p + 1)
  }

  /** `parseCaseBlock`: `case value` and the statements up to the next
      `case` or `endswitch`. */
  function ParseCaseBlock(toks: seq<Token>, p: nat): (r: (Option<CaseBlock>, nat))
    requires p < |toks| && !AtEnd(toks, p)
    ensures p < r.1 <= |toks|
    ensures r.0.Some? ==> CaseOk(r.0.value)
    ensures r.0.Some? ==> AtEnd(toks, r.1) || IsBoundary(Peek(toks, r.1), ["case", "endswitch"])
    decreases |toks| - p, 3
  {
    var (value, q) := ParseExpression(toks, p + 1);
    if value.None? then (None, q)
    else
      var (body, q2) := ParseBlock(toks, q, ["case", "endswitch"]);
      (Some(CaseBlock(value.value, body)), q2)
  }

  /** `parseBlockStatements`: statements until EOF or a boundary keyword,
      which is left unconsumed. */
  function ParseBlock(toks: seq<Token>, p: nat, bounds: seq<string>): (r: (seq<Stmt>, nat))
    requires p <= |toks|
    ensures p <= r.1 <= |toks|
    ensures AllOk(r.0)
    ensures AtEnd(toks, r.1) || IsBoundary(Peek(toks, r.1), bounds)
    decreases |toks| - p, 5
  {
    if AtEnd(toks, p) || IsBoundary(Peek(toks, p), bounds) then ([], p)
    else
      var (s, q) := ParseStatement(toks, p);
      var (rest, q2) := ParseBlock(toks, q, bounds);
      (s.ToSeq() + rest, q2)
  }
}
