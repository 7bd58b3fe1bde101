/**
 * Properties of the parser that relate several of its routines or hold
 * over whole token streams.
 */
module ParserProps {
  import opened Wrappers
  import opened Text
  import opened Tokens
  import opened Ast
  import opened Parser

  /** At an IDENTIFIER the statement is an assignment exactly when `=`
      follows, and otherwise a call statement; either way it is named by
      the identifier. */
  lemma AssignmentOrCall(toks: seq<Token>, p: nat)
    requires p < |toks| && toks[p].kind == Identifier
    ensures var r := ParseStatement(toks, p);
      && (r.0.Some? && NextIsSymbol(toks, p, "=") ==> r.0.value.Assign? && r.0.value.name == toks[p].text)
      && (r.0.Some? && !NextIsSymbol(toks, p, "=") ==> r.0.value.CallStmt? && r.0.value.callee == toks[p].text)
  {
  }

  /** A token that cannot start a statement (a keyword the dispatcher does
      not know, a NEWLINE, a stray symbol or literal) leaves no trace in the
      program: parsing from it is parsing from the token after it. */
  lemma SkippedToken(toks: seq<Token>, p: nat)
    requires p < |toks| && toks[p].kind != Eof && toks[p].kind != Identifier
    requires toks[p].kind == Keyword ==>
      toks[p].text !in ["code", "global", "local", "exitcode", "if", "switch", "while", "return"]
    ensures ParseProgram(toks, p) == ParseProgram(toks, p + 1)
  {
    assert ParseStatement(toks, p) == (None, p + 1);
  }

  /** An `if` carries a non-empty else-part only if an `else` keyword ended
      its then-part. */
  lemma ElseNeedsKeyword(toks: seq<Token>, p: nat)
    requires p < |toks| && !AtEnd(toks, p)
    ensures var r := ParseIf(toks, p);
      r.0.Some? && r.0.value.elseBody != [] ==>
        exists k :: p < k < r.1 && CheckKeyword(toks, k, "else")
  {
    var (cond, q) := ParseCondition(toks, p + 1);
    var (thenBody, q2) := ParseBlock(toks, q, ["else", "endif"]);
    var (elseBody, q3) := ParseElse(toks, q2);
    var r := ParseIf(toks, p);
    if r.0.Some? && r.0.value.elseBody != [] {
      assert r.0.value.elseBody == elseBody && r.1 == q3 + 1;
      assert p < q2 < r.1 && CheckKeyword(toks, q2, "else");
    }
  }

  /** `Identifiers` is empty exactly when no token is an IDENTIFIER. */
  lemma {:induction false} IdentifiersEmpty(ts: seq<Token>)
    ensures Identifiers(ts) == [] <==> forall k :: 0 <= k < |ts| ==> ts[k].kind != Identifier
  {
    if ts != [] {
      IdentifiersEmpty(ts[1..]);
      assert forall k :: 1 <= k < |ts| ==> ts[k] == ts[1..][k - 1];
    }
  }

  /** `global` and `local` read the same name list; `global` alone refuses
      an empty one, while `local` accepts it. */
  lemma GlobalVersusLocal(toks: seq<Token>, p: nat)
    requires p < |toks| && !AtEnd(toks, p)
    ensures var g := ParseGlobal(toks, p);
      var l := ParseLocal(toks, p);
      && g.1 == l.1
      && (g.0.None? <==> l.0.value.locals == [])
      && (g.0.Some? ==> g.0.value.globals == l.0.value.locals)
      && l.0.value.locals == Identifiers(toks[p + 1..l.1])
      && (g.0.None? <==> forall k :: p < k < g.1 ==> toks[k].kind != Identifier)
  {
    var (names, q) := ParseNames(toks, p + 1);
    IdentifiersEmpty(toks[p + 1..q]);
    assert forall k :: p < k < q ==> toks[k] == toks[p + 1..q][k - p - 1];
  }

  /** Tokens between cases that are neither `case`, `endswitch` nor EOF are
      skipped without effect. */
  lemma {:induction false} CasesSkipJunk(toks: seq<Token>, p: nat, j: nat)
    requires p <= j <= |toks|
    requires forall k :: p <= k < j ==>
      !AtEnd(toks, k) && !CheckKeyword(toks, k, "endswitch") && !CheckKeyword(toks, k, "case")
    ensures ParseCases(toks, p) == ParseCases(toks, j)
    decreases j - p
  {
    if p < j {
      CasesSkipJunk(toks, p + 1, j);
    }
  }

  // --------------------------------------------------------- argument lists

  predicate IsSymbolText(t: Token, s: string) {
    t.kind == Symbol && t.text == s
  }

  /** A token that is a whole expression on its own: a literal, or a name,
      which is a variable when no `(` follows it. */
  predicate IsAtom(t: Token) {
    t.kind in {Identifier, StringLit, Number, Boolean}
  }

  function AtomExpr(t: Token): Expr {
    if t.kind == Identifier then Variable(t.text) else Literal(t.kind, t.text)
  }

  /** Where the `)` of `n` atoms written from `p` on, separated by commas, sits. */
  function ArgumentsEnd(p: nat, n: nat): nat {
    if n == 0 then p else p + 2 * n - 1
  }

  /** `n` atoms at `p`, `p + 2`, ..., commas between them, then `)`. */
  predicate ArgumentsAt(toks: seq<Token>, p: nat, n: nat)
    ensures ArgumentsAt(toks, p, n) ==>
      ArgumentsEnd(p, n) < |toks| && IsSymbolText(toks[ArgumentsEnd(p, n)], ")")
    decreases n
  {
    if n == 0 then p < |toks| && IsSymbolText(toks[p], ")")
    else
      && p + 1 < |toks| && IsAtom(toks[p])
      && if n == 1 then IsSymbolText(toks[p + 1], ")")
         else IsSymbolText(toks[p + 1], ",") && ArgumentsAt(toks, p + 2, n - 1)
  }

  /** The expressions of such a list, read independently of the parser. */
  function Atoms(toks: seq<Token>, p: nat, n: nat): seq<Expr>
    requires ArgumentsAt(toks, p, n)
    decreases n
  {
    if n == 0 then []
    else if n == 1 then [AtomExpr(toks[p])]
    else [AtomExpr(toks[p])] + Atoms(toks, p + 2, n - 1)
  }

  /** The list holds `n` expressions. */
  lemma {:induction false} AtomsLength(toks: seq<Token>, p: nat, n: nat)
    requires ArgumentsAt(toks, p, n)
    ensures |Atoms(toks, p, n)| == n
    decreases n
  {
    if n >= 2 {
      AtomsLength(toks, p + 2, n - 1);
    }
  }

  /** The `i`-th of them is the atom at `p + 2 i`. */
  lemma {:induction false} AtomsIndex(toks: seq<Token>, p: nat, n: nat, i: nat)
    requires ArgumentsAt(toks, p, n) && i < n
    ensures p + 2 * i < |toks| && i < |Atoms(toks, p, n)|
    ensures Atoms(toks, p, n)[i] == AtomExpr(toks[p + 2 * i])
    decreases n
  {
    AtomsLength(toks, p, n);
    if i > 0 {
      AtomsIndex(toks, p + 2, n - 1, i - 1);
      assert p + 2 + 2 * (i - 1) == p + 2 * i;
    }
  }

  /** An atom followed by `,` or `)` is parsed as itself, and alone. */
  lemma AtomParsed(toks: seq<Token>, p: nat)
    requires p + 1 < |toks| && IsAtom(toks[p])
    requires IsSymbolText(toks[p + 1], ",") || IsSymbolText(toks[p + 1], ")")
    ensures ParseExpression(toks, p) == (Some(AtomExpr(toks[p])), p + 1)
  {
  }

  /** The first atom of a non-empty list, and what follows it. */
  lemma FirstArgument(toks: seq<Token>, p: nat, n: nat)
    requires n >= 1 && ArgumentsAt(toks, p, n)
    ensures !AtEnd(toks, p) && !CheckSymbol(toks, p, ")")
    ensures ParseExpression(toks, p) == (Some(AtomExpr(toks[p])), p + 1)
    ensures CheckSymbol(toks, p + 1, ",") <==> n >= 2
  {
    AtomParsed(toks, p);
  }

  /** One round of the call-expression argument loop over a parsed argument. */
  lemma CallArgumentsCons(toks: seq<Token>, p: nat, e: Expr)
    requires p + 1 < |toks| && !AtEnd(toks, p) && !CheckSymbol(toks, p, ")")
    requires ParseExpression(toks, p) == (Some(e), p + 1)
    ensures CheckSymbol(toks, p + 1, ",") ==>
      var rest := ParseCallArguments(toks, p + 2);
      ParseCallArguments(toks, p) == ([e] + rest.0, rest.1)
    ensures !CheckSymbol(toks, p + 1, ",") ==> ParseCallArguments(toks, p) == ([e], p + 1)
  {
    assert Some(e).ToSeq() == [e];
  }

  /** One round of the call-statement argument loop over a parsed argument. */
  lemma StatementArgumentsCons(toks: seq<Token>, p: nat, e: Expr)
    requires p + 1 < |toks| && !AtEnd(toks, p) && !CheckSymbol(toks, p, ")")
    requires ParseExpression(toks, p) == (Some(e), p + 1)
    ensures CheckSymbol(toks, p + 1, ",") ==>
      var rest := ParseStatementArguments(toks, p + 2);
      ParseStatementArguments(toks, p) == ([e] + rest.0, rest.1)
    ensures !CheckSymbol(toks, p + 1, ",") ==> ParseStatementArguments(toks, p) == ([e], p + 1)
  {
  }

  /** The argument loop of a call expression reads a comma list of atoms
      whole and in order, and stops on its `)`. */
  lemma {:induction false} CallArgumentsParsed(toks: seq<Token>, p: nat, n: nat)
    requires ArgumentsAt(toks, p, n)
    ensures ParseCallArguments(toks, p) == (Atoms(toks, p, n), ArgumentsEnd(p, n))
    decreases n
  {
    if n >= 1 {
      var e := AtomExpr(toks[p]);
      FirstArgument(toks, p, n);
      CallArgumentsCons(toks, p, e);
      if n >= 2 {
        var rest := ParseCallArguments(toks, p + 2);
        CallArgumentsParsed(toks, p + 2, n - 1);
        assert Atoms(toks, p, n) == [e] + rest.0;
        assert ArgumentsEnd(p, n) == rest.1;
      } else {
        assert Atoms(toks, p, n) == [e];
      }
    }
  }

  /** So does the argument loop of a call statement. */
  lemma {:induction false} StatementArgumentsParsed(toks: seq<Token>, p: nat, n: nat)
    requires ArgumentsAt(toks, p, n)
    ensures ParseStatementArguments(toks, p) == (Atoms(toks, p, n), ArgumentsEnd(p, n))
    decreases n
  {
    if n >= 1 {
      var e := AtomExpr(toks[p]);
      FirstArgument(toks, p, n);
      StatementArgumentsCons(toks, p, e);
      if n >= 2 {
        var rest := ParseStatementArguments(toks, p + 2);
        StatementArgumentsParsed(toks, p + 2, n - 1);
        assert Atoms(toks, p, n) == [e] + rest.0;
        assert ArgumentsEnd(p, n) == rest.1;
      } else {
        assert Atoms(toks, p, n) == [e];
      }
    }
  }

  /** `name ( a1 , ... , an )` with atoms for arguments is one call of
      `name` on exactly those arguments, and the cursor lands right after
      the `)`. */
  lemma CallExpressionOfAtoms(toks: seq<Token>, p: nat, n: nat)
    requires p + 1 < |toks| && toks[p].kind == Identifier && IsSymbolText(toks[p + 1], "(")
    requires ArgumentsAt(toks, p + 2, n)
    ensures ParseExpression(toks, p) ==
      (Some(Call(toks[p].text, Atoms(toks, p + 2, n))), ArgumentsEnd(p + 2, n) + 1)
  {
    CallArgumentsParsed(toks, p + 2, n);
    assert NextIsSymbol(toks, p, "(");
    assert CheckSymbol(toks, p + 1, "(") && CheckSymbol(toks, ArgumentsEnd(p + 2, n), ")");
    assert ParseExpression(toks, p) == ParseCallExpression(toks, p);
  }

  /** The same text as a statement is one call statement. */
  lemma CallStatementOfAtoms(toks: seq<Token>, p: nat, n: nat)
    requires p + 1 < |toks| && toks[p].kind == Identifier && IsSymbolText(toks[p + 1], "(")
    requires ArgumentsAt(toks, p + 2, n)
    ensures ParseStatement(toks, p) ==
      (Some(CallStmt(toks[p].text, Atoms(toks, p + 2, n))), ArgumentsEnd(p + 2, n) + 1)
  {
    StatementArgumentsParsed(toks, p + 2, n);
    assert !NextIsSymbol(toks, p, "=");
    assert CheckSymbol(toks, p + 1, "(") && CheckSymbol(toks, ArgumentsEnd(p + 2, n), ")");
    assert ParseStatement(toks, p) == ParseCallStatement(toks, p);
  }

  // ------------------------------------------------------- small programs

  /** `name = literal` is one assignment of that literal. */
  lemma AssignmentOfLiteral(toks: seq<Token>, p: nat)
    requires p + 2 < |toks|
    requires toks[p].kind == Identifier && toks[p + 1].kind == Symbol && toks[p + 1].text == "="
    requires toks[p + 2].kind in {StringLit, Number, Boolean}
    ensures ParseStatement(toks, p) ==
              (Some(Assign(toks[p].text, Literal(toks[p + 2].kind, toks[p + 2].text))), p + 3)
  {
    assert NextIsSymbol(toks, p, "=");
    assert CheckSymbol(toks, p + 1, "=");
  }

  /** `global` with no name after it builds nothing, and `local` with no
      name after it declares no variable; both consume only the keyword. */
  lemma EmptyDeclarations(toks: seq<Token>, p: nat)
    requires p + 1 < |toks| && toks[p].kind == Keyword
    requires toks[p + 1].kind != Identifier && !(toks[p + 1].kind == Symbol && toks[p + 1].text == ",")
    ensures toks[p].text == "global" ==> ParseStatement(toks, p) == (None, p + 1)
    ensures toks[p].text == "local" ==> ParseStatement(toks, p) == (Some(Local([])), p + 1)
  {
    assert ParseNames(toks, p + 1) == ([], p + 1);
  }

  /** An `if` whose then-block runs into EOF has no `endif`: it is dropped,
      and with it everything up to the end of the program. */
  lemma UnclosedIfDropped(toks: seq<Token>, p: nat)
    requires p < |toks| && toks[p].kind == Keyword && toks[p].text == "if"
    requires var q := ParseCondition(toks, p + 1).1;
      AtEnd(toks, ParseBlock(toks, q, ["else", "endif"]).1)
    ensures ParseProgram(toks, p) == []
  {
    var (cond, q) := ParseCondition(toks, p + 1);
    var (thenBody, q2) := ParseBlock(toks, q, ["else", "endif"]);
    assert ParseElse(toks, q2) == ([], q2);
    assert ParseIf(toks, p) == (None, q2);
    assert ParseStatement(toks, p) == (None, q2);
  }
}
