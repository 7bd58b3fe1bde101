/**
 * Properties of the interpreter that relate several runs or several
 * statements: sequencing, `exitcode`, branches that are not taken, loops,
 * the switch, assignment and lookup, declarations, and calls.
 */
module InterpreterProps {
  import opened Wrappers
  import opened Tokens
  import opened Ast
  import opened Values
  import opened ValueProps
  import opened Scope
  import opened Interpreter

  // -------------------------------------------------------------- sequencing

  /** Running `a + b` runs `a`, and then `b` only if `a` ended normally. */
  lemma {:induction false} ExecListAppend(a: seq<Stmt>, b: seq<Stmt>, st: State, fuel: nat)
    ensures ExecList(a + b, st, fuel) ==
      var (sig, st1) := ExecList(a, st, fuel);
      if sig != Normal then (sig, st1) else ExecList(b, st1, fuel)
    decreases |a|
  {
    if a == [] {
      assert a + b == b;
    } else {
      assert (a + b)[0] == a[0];
      assert (a + b)[1..] == a[1..] + b;
      var (sig, st1) := ExecStmt(a[0], st, fuel);
      if sig == Normal {
        ExecListAppend(a[1..], b, st1, fuel);
      }
    }
  }

  /** Whatever follows a list that ended abnormally never runs. */
  lemma SignalAbandonsRest(a: seq<Stmt>, b: seq<Stmt>, st: State, fuel: nat)
    requires ExecList(a, st, fuel).0 != Normal
    ensures ExecList(a + b, st, fuel) == ExecList(a, st, fuel)
  {
    ExecListAppend(a, b, st, fuel);
  }

  /** `exitcode` stops the script on the spot, state untouched. */
  lemma ExitCodeStops(rest: seq<Stmt>, st: State, fuel: nat)
    requires fuel > 0
    ensures ExecList([ExitCode] + rest, st, fuel) == (Exit, st)
  {
    assert ([ExitCode] + rest)[0] == ExitCode;
  }

  // ---------------------------------------------------------------- branches

  /** The branch that is not taken has no influence on the outcome. */
  lemma IfIgnoresOtherBranch(c: Condition, t: seq<Stmt>, t2: seq<Stmt>, e: seq<Stmt>, e2: seq<Stmt>,
                             st: State, fuel: nat)
    requires fuel > 0
    ensures var (sig, v, _) := EvalCondition(c, st, fuel - 1);
      && (sig == Normal && Truthy(v) ==> ExecStmt(If(c, t, e), st, fuel) == ExecStmt(If(c, t, e2), st, fuel))
      && (sig == Normal && !Truthy(v) ==> ExecStmt(If(c, t, e), st, fuel) == ExecStmt(If(c, t2, e), st, fuel))
  {
  }

  /** A `while` whose condition is false at the start does nothing but
      evaluate that condition. */
  lemma WhileFalseSkips(c: Condition, body: seq<Stmt>, st: State, fuel: nat)
    requires fuel >= 2
    requires var (sig, v, _) := EvalCondition(c, st, fuel - 2); sig == Normal && !Truthy(v)
    ensures ExecStmt(While(c, body), st, fuel) == (Normal, EvalCondition(c, st, fuel - 2).2)
  {
  }

  /** `true = true`, the condition of a loop that never stops by itself. */
  const AlwaysTrue := Condition(Some(Literal(Boolean, "true")), "=", Some(Literal(Boolean, "true")))

  /** `while true = true` with an empty body never finishes, whatever fuel
      it is given. */
  lemma {:induction false} EmptyLoopDiverges(st: State, fuel: nat)
    ensures ExecWhile(AlwaysTrue, [], st, fuel) == (OutOfFuel, st)
    decreases fuel
  {
    if fuel > 1 {
      assert Text.Lower("true") == "true";
      assert EvalLiteral(Boolean, "true") == (Normal, Bool(true));
      assert Eval(Literal(Boolean, "true"), st, fuel - 1) == (Normal, Bool(true), st);
      assert EvalOperand(AlwaysTrue.left, st, fuel - 1) == (Normal, Bool(true), st);
      assert EvalCondition(AlwaysTrue, st, fuel - 1) == (Normal, Bool(true), st);
      EmptyLoopDiverges(st, fuel - 1);
    }
  }

  // ------------------------------------------------------ literals, conditions

  /** A NUMBER literal is its decimal value while that fits an `int`; a
      longer run of digits, which the lexer still accepts, fails in
      `Integer.parseInt`. */
  lemma NumberLiteralOfDecimal(n: nat)
    ensures EvalLiteral(Number, Decimal(n)) ==
      if n <= IntMax then (Normal, Int(n)) else (Crash("NumberFormatException"), Nil)
  {
    ParseDecimal(n);
  }

  /** A BOOLEAN literal, which the lexer emits for `true` and `false` in any
      letter case, is `true` exactly for the spelling of `true`. */
  lemma BooleanLiteralValue(t: string)
    requires Text.Lower(t) == "true" || Text.Lower(t) == "false"
    ensures EvalLiteral(Boolean, t) == (Normal, Bool(Text.Lower(t) == "true"))
  {
  }

  /** `!=` is the negation of `=` on the same sides, and both leave the
      same state and fail in the same way. */
  lemma NotEqualsNegates(l: Option<Expr>, r: Option<Expr>, st: State, fuel: nat)
    ensures var eq := EvalCondition(Condition(l, "=", r), st, fuel);
      var ne := EvalCondition(Condition(l, "!=", r), st, fuel);
      && eq.0 == ne.0 && eq.2 == ne.2
      && (eq.0 == Normal ==> ne.1 == Bool(!eq.1.b))
  {
  }

  /** `=` compares what its two sides evaluate to, left side first: two
      variables are equal when they hold the same value, both unbound
      included, and nothing else happens. */
  lemma EqualsOfVariables(x: string, y: string, st: State, fuel: nat)
    requires fuel > 0
    ensures EvalCondition(Condition(Some(Variable(x)), "=", Some(Variable(y))), st, fuel) ==
      (Normal, Bool(GetVariable(st.env, x) == GetVariable(st.env, y)), st)
  {
    assert EvalOperand(Some(Variable(x)), st, fuel) == (Normal, GetVariable(st.env, x), st);
    assert EvalOperand(Some(Variable(y)), st, fuel) == (Normal, GetVariable(st.env, y), st);
  }

  /** `=` over two literal sides is the equality of the literals' values. */
  lemma EqualsOfLiterals(k1: TokenType, t1: string, k2: TokenType, t2: string, st: State, fuel: nat)
    requires fuel > 0
    requires EvalLiteral(k1, t1).0 == Normal && EvalLiteral(k2, t2).0 == Normal
    ensures EvalCondition(Condition(Some(Literal(k1, t1)), "=", Some(Literal(k2, t2))), st, fuel) ==
      (Normal, Bool(EvalLiteral(k1, t1).1 == EvalLiteral(k2, t2).1), st)
  {
    assert EvalOperand(Some(Literal(k1, t1)), st, fuel) == (Normal, EvalLiteral(k1, t1).1, st);
    assert EvalOperand(Some(Literal(k2, t2)), st, fuel) == (Normal, EvalLiteral(k2, t2).1, st);
  }

  /** A condition with both sides missing compares `null` with `null`, and
      reports each missing side. */
  lemma MissingSidesAreEqual(st: State, fuel: nat)
    ensures EvalCondition(Condition(None, "=", None), st, fuel) ==
      (Normal, Bool(true), st.(trace := st.trace + [NullExpression, NullExpression]))
  {
    var st1 := st.(trace := st.trace + [NullExpression]);
    assert st1.(trace := st1.trace + [NullExpression]) == st.(trace := st.trace + [NullExpression, NullExpression]);
    assert Equals(Nil, Nil);
  }

  // ------------------------------------------------------------------ switch

  /** A case whose value is a literal that evaluates without error. */
  predicate StaticCase(c: CaseBlock) {
    c.value.Literal? && EvalLiteral(c.value.kind, c.value.text).0 == Normal
  }

  function CaseValue(c: CaseBlock): Value
    requires StaticCase(c)
  {
    EvalLiteral(c.value.kind, c.value.text).1
  }

  /** With literal case values, the first case equal to the selector runs
      its body and nothing else runs. */
  lemma {:induction false} SwitchFirstMatch(cases: seq<CaseBlock>, sel: Value, st: State, fuel: nat, i: nat)
    requires fuel > 0 && i < |cases|
    requires forall k :: 0 <= k <= i ==> StaticCase(cases[k])
    requires forall k :: 0 <= k < i ==> !Equals(sel, CaseValue(cases[k]))
    requires Equals(sel, CaseValue(cases[i]))
    ensures ExecCases(cases, sel, st, fuel) == ExecList(cases[i].body, st, fuel - 1)
    decreases i
  {
    if i > 0 {
      assert forall k :: 0 <= k < i ==> cases[1..][k] == cases[k + 1];
      SwitchFirstMatch(cases[1..], sel, st, fuel, i - 1);
    }
  }

  /** With literal case values and none equal to the selector, the switch
      does nothing. */
  lemma {:induction false} SwitchNoMatch(cases: seq<CaseBlock>, sel: Value, st: State, fuel: nat)
    requires fuel > 0
    requires forall k :: 0 <= k < |cases| ==> StaticCase(cases[k]) && !Equals(sel, CaseValue(cases[k]))
    ensures ExecCases(cases, sel, st, fuel) == (Normal, st)
    decreases |cases|
  {
    if cases != [] {
      assert forall k :: 0 <= k < |cases| - 1 ==> cases[1..][k] == cases[k + 1];
      SwitchNoMatch(cases[1..], sel, st, fuel);
    }
  }

  // ------------------------------------------------------- assignment, scope

  /** Lookup only depends on the frames: two chains that differ in their
      root alone, and whose roots agree on `m`, agree on `m`. */
  lemma {:induction false} LookupIgnoresOtherRootNames(c: seq<Frame>, c2: seq<Frame>, m: string)
    requires |c| == |c2| > 0 && c[..|c| - 1] == c2[..|c2| - 1]
    requires (m in c[|c| - 1] <==> m in c2[|c2| - 1])
    requires m in c[|c| - 1] ==> c[|c| - 1][m] == c2[|c2| - 1][m]
    ensures GetVariable(c, m) == GetVariable(c2, m)
    decreases |c|
  {
    if |c| > 1 {
      assert c[0] == c2[0];
      assert c[1..][..|c| - 2] == c2[1..][..|c2| - 2];
      LookupIgnoresOtherRootNames(c[1..], c2[1..], m);
    }
  }

  /** Binding `n` in the root changes no other name, and `n` reads back the
      new value unless a nearer frame also binds it. */
  lemma RootWrite(c: Chain, n: string, v: Value)
    ensures forall m :: m != n ==> GetVariable(SetRootVariable(c, n, v), m) == GetVariable(c, m)
    ensures (forall k :: 0 <= k < |c| - 1 ==> n !in c[k]) ==> GetVariable(SetRootVariable(c, n, v), n) == v
  {
    var r := SetRootVariable(c, n, v);
    forall m | m != n
      ensures GetVariable(r, m) == GetVariable(c, m)
    {
      LookupIgnoresOtherRootNames(r, c, m);
    }
    if forall k :: 0 <= k < |c| - 1 ==> n !in c[k] {
      assert forall k :: 0 <= k < |r| - 1 ==> r[k] == c[k];
      assert NearestBinder(r, n, |r| - 1);
    }
  }

  /** An assignment reads back: once the right-hand side has evaluated to
      `v`, the name holds `v` and every other name what it held before,
      unless the name is a global that a nearer frame shadows. */
  lemma AssignmentReadsBack(n: string, rhs: Expr, st: State, fuel: nat, v: Value, st1: State)
    requires fuel > 0 && Eval(rhs, st, fuel - 1) == (Normal, v, st1)
    requires n in Root(st1.env) ==> forall k :: 0 <= k < |st1.env| - 1 ==> n !in st1.env[k]
    ensures var (sig, st2) := ExecStmt(Assign(n, rhs), st, fuel);
      && sig == Normal
      && GetVariable(st2.env, n) == v
      && (forall m :: m != n ==> GetVariable(st2.env, m) == GetVariable(st1.env, m))
      && st2.funcs == st1.funcs && st2.trace == st1.trace
  {
    RootWrite(st1.env, n, v);
  }

  /** The shadowing quirk: assigning to a global from a frame that binds the
      same name writes the root, and the frame's own value still reads back. */
  lemma AssignmentToShadowedGlobal(n: string, t: string, st: State, fuel: nat)
    requires fuel >= 2
    requires |st.env| > 1 && n in st.env[0] && n in Root(st.env)
    ensures var (sig, st2) := ExecStmt(Assign(n, Literal(StringLit, t)), st, fuel);
      && sig == Normal
      && n in Root(st2.env) && Root(st2.env)[n] == Str(t)
      && GetVariable(st2.env, n) == st.env[0][n]
  {
    var r := SetRootVariable(st.env, n, Str(t));
    assert r[0] == st.env[0];
    assert NearestBinder(r, n, 0);
  }

  // ------------------------------------------------------------ declarations

  /** Two chains are equal when their current frames and their roots are. */
  lemma ChainsEqual(a: Chain, b: Chain)
    requires |a| == |b| && a[..|a| - 1] == b[..|b| - 1] && Root(a) == Root(b)
    ensures a == b
  {
    assert forall k :: 0 <= k < |a| - 1 ==> a[k] == a[..|a| - 1][k];
  }

  /** `global` twice is `global` once. */
  lemma GlobalIdempotent(env: Chain, names: seq<string>)
    ensures DeclareGlobals(DeclareGlobals(env, names), names) == DeclareGlobals(env, names)
  {
    var once := DeclareGlobals(env, names);
    var twice := DeclareGlobals(once, names);
    assert Root(twice) == Root(once);
    ChainsEqual(twice, once);
  }

  /** `local` twice is `local` once. */
  lemma LocalIdempotent(env: Chain, names: seq<string>)
    ensures DeclareLocals(DeclareLocals(env, names), names) == DeclareLocals(env, names)
  {
    var once := DeclareLocals(env, names);
    var twice := DeclareLocals(once, names);
    assert twice[0] == once[0];
    assert twice == [twice[0]] + twice[1..];
    assert once == [once[0]] + once[1..];
  }

  /** A global already bound keeps its value; `global` never resets it. */
  lemma GlobalKeepsValue(st: State, names: seq<string>, n: string, fuel: nat)
    requires fuel > 0 && n in Root(st.env)
    ensures Root(ExecStmt(Global(names), st, fuel).1.env)[n] == Root(st.env)[n]
  {
  }

  // ------------------------------------------------------------------- calls

  /** A declared function is found before a built-in of the same name: a
      declared function with an empty body replaces the built-in entirely,
      and the call changes nothing and yields `null`. */
  lemma DeclaredFunctionShadowsBuiltin(d: FunctionDecl, args: seq<Value>, st: State, fuel: nat)
    requires fuel > 0 && GetFunction(st.funcs, d.name) == Some(d) && d.body == []
    ensures CallFunction(d.name, args, st, fuel) == (Normal, Nil, st)
  {
    var frame := BindParameters(d.params, args, |d.params|);
    var inner := st.(env := [frame, Root(st.env)]);
    assert ExecList([], inner, fuel - 1) == (Normal, inner);
    ChainsEqual(WithRoot(st.env, Root(inner.env)), st.env);
  }

  /** A function body runs in a frame hanging off the root: what the caller
      has in its own frames can neither be seen nor changed by the callee. */
  lemma CallerFramesInvisible(d: FunctionDecl, args: seq<Value>, st: State, st2: State, fuel: nat)
    requires Root(st.env) == Root(st2.env)
    requires st.funcs == st2.funcs && st.trace == st2.trace && st.input == st2.input && st.nextId == st2.nextId
    ensures var r := ExecuteFunction(d, args, st, fuel);
      var r2 := ExecuteFunction(d, args, st2, fuel);
      && r.0 == r2.0
      && Root(r.2.env) == Root(r2.2.env)
      && r.2.funcs == r2.2.funcs && r.2.trace == r2.2.trace
      && r.2.input == r2.2.input && r.2.nextId == r2.2.nextId
  {
    var frame := BindParameters(d.params, args, |d.params|);
    assert st.(env := [frame, Root(st.env)]) == st2.(env := [frame, Root(st2.env)]);
  }

  /** An unknown name logs the diagnostic and yields a fresh `NoValue`;
      variables and functions are untouched. */
  lemma UnknownFunctionCall(name: string, args: seq<Value>, st: State, fuel: nat)
    requires fuel > 0 && name !in st.funcs && !IsBuiltin(name)
    ensures var (sig, v, st2) := CallFunction(name, args, st, fuel);
      && sig == Normal && v == NoValue(st.nextId)
      && st2.env == st.env && st2.funcs == st.funcs && st2.input == st.input
      && st2.trace == st.trace + [UnknownFunction(name)]
      && st2.nextId > st.nextId
  {
  }

  /** Every `NoValue` a built-in returns is new: distinct from every marker
      handed out before. */
  lemma NoValueIsFresh(name: string, args: seq<Value>, st: State)
    ensures var (_, v, st2) := CallBuiltin(name, args, st);
      v.NoValue? ==> v.id >= st.nextId && st2.nextId > v.id
  {
  }

  /** `advancephase` adds one to the global `phase`, wrapping at 2^31 - 1,
      and prints nothing. */
  lemma AdvancePhaseIncrements(args: seq<Value>, st: State, fuel: nat, i: int)
    requires fuel > 0 && "advancephase" !in st.funcs
    requires "phase" in Root(st.env) && Root(st.env)["phase"] == Int(i) && InInt32(i)
    ensures var (sig, _, st2) := CallFunction("advancephase", args, st, fuel);
      && sig == Normal
      && (i < IntMax ==> Root(st2.env)["phase"] == Int(i + 1))
      && (i == IntMax ==> Root(st2.env)["phase"] == Int(IntMin))
      && st2.trace == st.trace
  {
    IncrementWraps(i);
  }

  /** `advancephase` before `global phase` has given it a number fails. */
  lemma AdvancePhaseNeedsNumber(args: seq<Value>, st: State, fuel: nat)
    requires fuel > 0 && "advancephase" !in st.funcs
    requires "phase" !in Root(st.env) || !Root(st.env)["phase"].Int?
    ensures CallFunction("advancephase", args, st, fuel).0.Crash?
  {
  }

  /** `exitcode` inside a called function stops the caller too. */
  lemma ExitPropagatesThroughCall(d: FunctionDecl, rest: seq<Stmt>, st: State, fuel: nat)
    requires fuel >= 3 && GetFunction(st.funcs, d.name) == Some(d) && d.body == [ExitCode] + rest
    ensures ExecStmt(CallStmt(d.name, []), st, fuel).0 == Exit
  {
    var frame := BindParameters(d.params, [], |d.params|);
    ExitCodeStops(rest, st.(env := [frame, Root(st.env)]), fuel - 2);
    assert ExecuteFunction(d, [], st, fuel - 2).0 == Exit;
    assert CallFunction(d.name, [], st, fuel - 1).0 == Exit;
    assert EvalArgs([], st, fuel - 1) == (Normal, [], st);
  }
  /** `puppetevent` prints its prompt, then reads exactly one line: it fails
      when there is none, and otherwise yields the line's 32-bit value or
      fails when the line is not one. */
  lemma PuppetEventReads(args: seq<Value>, st: State, fuel: nat)
    requires fuel > 0 && "puppetevent" !in st.funcs
    ensures var (sig, v, st2) := CallFunction("puppetevent", args, st, fuel);
      && st2.trace == st.trace + [Output("puppetevent", args)]
      && st2.env == st.env && st2.funcs == st.funcs && st2.nextId == st.nextId
      && (st.input == [] ==> sig.Crash? && st2.input == [])
      && (st.input != [] ==>
            && st2.input == st.input[1..]
            && (sig == Normal <==> ParseInt32(st.input[0]).Some?)
            && (sig == Normal ==> v == Int(ParseInt32(st.input[0]).value))
            && (sig != Normal ==> sig.Crash?))
  {
  }

  /** An answer line spelling a number up to 2^31 - 1 is read as that number. */
  lemma PuppetEventDecimal(n: nat, rest: seq<string>, args: seq<Value>, st: State, fuel: nat)
    requires fuel > 0 && "puppetevent" !in st.funcs && n <= IntMax
    requires st.input == [Decimal(n)] + rest
    ensures var (sig, v, st2) := CallFunction("puppetevent", args, st, fuel);
      sig == Normal && v == Int(n) && st2.input == rest
  {
    ParseDecimal(n);
    PuppetEventReads(args, st, fuel);
    assert st.input[1..] == rest;
  }
}
