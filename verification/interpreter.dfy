/**
 * The tree-walking interpreter.  Execution is a state transformer over the
 * scope chain, the root function table, an output trace and the lines still
 * to be read for `puppetevent`.  Every routine takes a fuel argument that
 * each nested call consumes; running out of fuel stands for a computation
 * that has not finished (a `while` that never stops, unbounded recursion).
 * The `Exit` signal is Java's `ExitScriptException`: nothing inside
 * the core catches it, so it abandons every enclosing statement list.
 * `Crash` is a Java run-time exception (a missing argument, an unparsable
 * number, a non-integer `phase`), which likewise propagates to the driver.
 */
module Interpreter {
  import opened Wrappers
  import opened Tokens
  import opened Ast
  import opened Values
  import opened Scope

  datatype Signal = Normal | Exit | Crash(reason: string) | OutOfFuel

  /** Observable effects: a built-in's output, the unknown-function
      diagnostic, or the "Unknown expression type: null" diagnostic that
      `evaluateExpression` prints for a missing expression. */
  datatype Event =
    | Output(builtin: string, args: seq<Value>)
    | UnknownFunction(name: string)
    | NullExpression

  /** `env` is the current context's chain (root last); `funcs` the root's
      function table; `input` the lines stdin still holds; `nextId` the
      identity the next `NoValue` marker gets. */
  datatype State = State(
    env: Chain,
    funcs: FunctionTable,
    trace: seq<Event>,
    input: seq<string>,
    nextId: nat)

  /** What no evaluation undoes: the chain keeps its number of frames, a
      declared function stays declared, the trace is only extended, input
      is only consumed from the front, and no marker identity is reused. */
  predicate Advances(a: State, b: State) {
    && |b.env| == |a.env|
    && a.funcs.Keys <= b.funcs.Keys
    && a.trace <= b.trace
    && |b.input| <= |a.input| && b.input == a.input[|a.input| - |b.input|..]
    && a.nextId <= b.nextId
  }

  /** Built-ins that print their first argument. */
  const OneArgBuiltins: set<string> :=
    {"puppetspeak", "message", "spotmovie", "opentrackfile", "closetrackfile", "delay"}

  predicate IsBuiltin(name: string) {
    name in OneArgBuiltins || name in {"puppetclear", "puppetbevel", "puppetevent", "advancephase"}
  }

  // ------------------------------------------------------------ expressions

  /** `interpretLiteral`: NUMBER parses as a 32-bit integer, STRING is its
      text, BOOLEAN is `Boolean.parseBoolean`; other categories give `null`. */
  function EvalLiteral(kind: TokenType, text: string): (r: (Signal, Value))
    ensures r.0 == Normal || r.0.Crash?
    ensures kind == Number ==> (r.0 == Normal <==> '.' !in text && ParseInt32(text).Some?)
    ensures kind == Number && r.0 == Normal ==> r.1 == Int(ParseInt32(text).value) && InInt32(r.1.i)
    ensures kind == StringLit ==> r == (Normal, Str(text))
    ensures kind == Boolean ==> r.0 == Normal && r.1.Bool? && (r.1.b <==> Text.Lower(text) == "true")
    ensures kind !in {Number, StringLit, Boolean} ==> r == (Normal, Nil)
  {
    match kind
    case Number =>
      if '.' in text then (Crash("floating-point literal"), Nil)
      else
        var n := ParseInt32(text);
        if n.None? then (Crash("NumberFormatException"), Nil) else (Normal, Int(n.value))
    case StringLit => (Normal, Str(text))
    case Boolean => (Normal, Bool(Text.EqualsIgnoreCase(text, "true")))
    case _ => (Normal, Nil)
  }

  /** `evaluateExpression`. */
  function Eval(e: Expr, st: State, fuel: nat): (r: (Signal, Value, State))
    decreases fuel, 0
  {
    if fuel == 0 then (OutOfFuel, Nil, st)
    else match e
      case Literal(kind, text) =>
        var (sig, v) := EvalLiteral(kind, text);
        (sig, v, st)
      case Variable(n) => (Normal, GetVariable(st.env, n), st)
      case Call(name, args) =>
        var (sig, vals, st1) := EvalArgs(args, st, fuel - 1);
        if sig != Normal then (sig, Nil, st1) else CallFunction(name, vals, st1, fuel - 1)
  }

  /** Arguments are evaluated left to right; a signal stops the rest. */
  function EvalArgs(args: seq<Expr>, st: State, fuel: nat): (r: (Signal, seq<Value>, State))
    ensures r.0 == Normal ==> |r.1| == |args|
    decreases fuel, |args|
  {
    if args == [] then (Normal, [], st)
    else
      var (sig, v, st1) := Eval(args[0], st, fuel);
      if sig != Normal then (sig, [], st1)
      else
        var (sig2, vs, st2) := EvalArgs(args[1..], st1, fuel);
        (sig2, [v] + vs, st2)
  }

  /** A missing side of a condition evaluates to `null`, after the
      diagnostic `evaluateExpression` prints for it. */
  function EvalOperand(e: Option<Expr>, st: State, fuel: nat): (r: (Signal, Value, State))
    ensures e.None? ==> r == (Normal, Nil, st.(trace := st.trace + [NullExpression]))
    decreases fuel, 1
  {
    match e
    case None => (Normal, Nil, st.(trace := st.trace + [NullExpression]))
    case Some(x) => Eval(x, st, fuel)
  }

  /** `evaluateCondition`: left side, then right side, then the operator. */
  function EvalCondition(c: Condition, st: State, fuel: nat): (r: (Signal, Value, State))
    ensures r.0 == Normal ==> r.1.Bool?
    ensures r.0 == Normal ==>
      var (_, x, st1) := EvalOperand(c.left, st, fuel);
      var y := EvalOperand(c.right, st1, fuel).1;
      && (c.op == "=" ==> r.1 == Bool(x == y))
      && (c.op == "!=" ==> r.1 == Bool(x != y))
    ensures r.0 == Normal && c.op !in {"=", "!=", ">"} ==> r.1 == Bool(false)
    decreases fuel, 2
  {
    var (sig, left, st1) := EvalOperand(c.left, st, fuel);
    if sig != Normal then (sig, Nil, st1)
    else
      var (sig2, right, st2) := EvalOperand(c.right, st1, fuel);
      if sig2 != Normal then (sig2, Nil, st2)
      else if c.op == "=" then (Normal, Bool(Equals(left, right)), st2)
      else if c.op == "!=" then (Normal, Bool(!Equals(left, right)), st2)
      else if c.op == ">" then (Normal, Bool(left.Int? && right.Int? && left.i > right.i), st2)
      else (Normal, Bool(false), st2)
  }

  // -------------------------------------------------------------- functions

  /** The value of the `i`-th argument, `null` when it was not passed. */
  function ArgOrNil(args: seq<Value>, i: nat): Value {
    if i < |args| then args[i] else Nil
  }

  /** Whether parameter `i` is the last one of its name among the first `k`. */
  predicate LastOfName(params: seq<string>, i: nat, k: nat) {
    i < k <= |params| && forall j :: i < j < k ==> params[j] != params[i]
  }

  /** The parameter loop of `executeFunction` over the first `k` parameters:
      each parameter is bound, in order, to its argument or to `null`. */
  function BindParameters(params: seq<string>, args: seq<Value>, k: nat): (m: Frame)
    requires k <= |params|
    ensures forall n :: n in m <==> n in params[..k]
  {
    if k == 0 then map[]
    else
      assert params[..k] == params[..k - 1] + [params[k - 1]];
      BindParameters(params, args, k - 1)[params[k - 1] := ArgOrNil(args, k - 1)]
  }

  /** Binding is positional: the last parameter of each name holds the
      argument at its position, or `null` when too few were passed. */
  lemma {:induction false} BindParametersPositional(params: seq<string>, args: seq<Value>, k: nat, i: nat)
    requires LastOfName(params, i, k)
    ensures BindParameters(params, args, k)[params[i]] == ArgOrNil(args, i)
    decreases k
  {
    if i < k - 1 {
      assert params[k - 1] != params[i];
      BindParametersPositional(params, args, k - 1, i);
    }
  }

  /** `callFunction`: a declared function first, then the built-ins, then
      the unknown-function diagnostic. */
  function CallFunction(name: string, args: seq<Value>, st: State, fuel: nat): (r: (Signal, Value, State))
    decreases fuel, 0
  {
    if fuel == 0 then (OutOfFuel, Nil, st)
    else match GetFunction(st.funcs, name)
      case Some(d) => ExecuteFunction(d, args, st, fuel - 1)
      case None => CallBuiltin(name, args, st)
  }

  /** `executeFunction`: a fresh frame whose parent is the root, parameters
      bound positionally, the body run; `return` is never signalled, so the
      result is always `null`.  The caller's frames come back unchanged and
      the root keeps what the body did to it. */
  function ExecuteFunction(d: FunctionDecl, args: seq<Value>, st: State, fuel: nat): (r: (Signal, Value, State))
    ensures r.1 == Nil
    ensures r.2.env[..|r.2.env| - 1] == st.env[..|st.env| - 1]
    decreases fuel, |d.body| + 1
  {
    var frame := BindParameters(d.params, args, |d.params|);
    var (sig, st1) := ExecList(d.body, st.(env := [frame, Root(st.env)]), fuel);
    (sig, Nil, st1.(env := WithRoot(st.env, Root(st1.env))))
  }

  /** A fresh `EmptyFunctionResult`. */
  function Fresh(st: State): (r: (Value, State))
    ensures r.0.NoValue? && r.0.id == st.nextId && r.1.nextId > r.0.id
    ensures r.1 == st.(nextId := r.1.nextId)
  {
    (NoValue(st.nextId), st.(nextId := st.nextId + 1))
  }

  /** The built-in table of `callFunction`. */
  function CallBuiltin(name: string, args: seq<Value>, st: State): (r: (Signal, Value, State))
    ensures r.2.funcs == st.funcs
  {
    if name in OneArgBuiltins then
      if |args| < 1 then (Crash("IndexOutOfBoundsException"), Nil, st)
      else
        var (v, st1) := Fresh(st.(trace := st.trace + [Output(name, args)]));
        (Normal, v, st1)
    else if name == "puppetclear" then
      var (v, st1) := Fresh(st.(trace := st.trace + [Output(name, args)]));
      (Normal, v, st1)
    else if name == "puppetbevel" then
      if |args| < 2 then (Crash("IndexOutOfBoundsException"), Nil, st)
      else
        var (v, st1) := Fresh(st.(trace := st.trace + [Output(name, args)]));
        (Normal, v, st1)
    else if name == "puppetevent" then
      var st1 := st.(trace := st.trace + [Output(name, args)]);
      if st1.input == [] then (Crash("NoSuchElementException"), Nil, st1)
      else
        var answer := ParseInt32(st1.input[0]);
        var st2 := st1.(input := st1.input[1..]);
        if answer.None? then (Crash("NumberFormatException"), Nil, st2)
        else (Normal, Int(answer.value), st2)
    else if name == "advancephase" then
      var root := Root(st.env);
      if "phase" !in root || root["phase"].Nil? then (Crash("NullPointerException"), Nil, st)
      else if !root["phase"].Int? then (Crash("ClassCastException"), Nil, st)
      else
        var phase := Int(Wrap32(root["phase"].i + 1));
        var (v, st1) := Fresh(st.(env := SetRootVariable(st.env, "phase", phase)));
        (Normal, v, st1)
    else
      var (v, st1) := Fresh(st.(trace := st.trace + [UnknownFunction(name)]));
      (Normal, v, st1)
  }

  // ------------------------------------------------------------- statements

  /** `global`: bind `null` in the root for each name the root lacks. */
  function DeclareGlobals(env: Chain, names: seq<string>): (r: Chain)
    ensures |r| == |env| && r[..|r| - 1] == env[..|env| - 1]
    ensures Root(r).Keys == Root(env).Keys + set k | 0 <= k < |names| :: names[k]
    ensures forall n :: n in Root(env) ==> Root(r)[n] == Root(env)[n]
    ensures forall n :: n in Root(r) && n !in Root(env) ==> Root(r)[n] == Nil
    decreases |names|
  {
    if names == [] then env
    else
      var root := Root(env);
      var env1 := if names[0] in root then env else SetRootVariable(env, names[0], Nil);
      var r := DeclareGlobals(env1, names[1..]);
      assert (set k | 0 <= k < |names| :: names[k]) == {names[0]} + set k | 0 <= k < |names[1..]| :: names[1..][k];
      r
  }

  /** `local`: bind integer 0 in the current frame for each name it lacks. */
  function DeclareLocals(env: Chain, names: seq<string>): (r: Chain)
    ensures |r| == |env| && r[1..] == env[1..]
    ensures r[0].Keys == env[0].Keys + set k | 0 <= k < |names| :: names[k]
    ensures forall n :: n in env[0] ==> r[0][n] == env[0][n]
    ensures forall n :: n in r[0] && n !in env[0] ==> r[0][n] == Int(0)
    decreases |names|
  {
    if names == [] then env
    else
      var env1 := if HasVariable(env, names[0]) then env else SetVariable(env, names[0], Int(0));
      var r := DeclareLocals(env1, names[1..]);
      assert (set k | 0 <= k < |names| :: names[k]) == {names[0]} + set k | 0 <= k < |names[1..]| :: names[1..][k];
      r
  }

  /** Assignment: into the root when the root already binds the name,
      otherwise into the current frame. */
  function AssignVariable(env: Chain, n: string, v: Value): (r: Chain)
    ensures |r| == |env|
    ensures n in Root(env) ==> r[..|r| - 1] == env[..|env| - 1] && Root(r) == Root(env)[n := v]
    ensures n !in Root(env) ==> r[1..] == env[1..] && r[0] == env[0][n := v]
  {
    if n in Root(env) then SetRootVariable(env, n, v) else SetVariable(env, n, v)
  }

  /** `interpretStatements`: in order, until a signal other than `Normal`. */
  function ExecList(ss: seq<Stmt>, st: State, fuel: nat): (r: (Signal, State))
    decreases fuel, |ss|
  {
    if ss == [] then (Normal, st)
    else
      var (sig, st1) := ExecStmt(ss[0], st, fuel);
      if sig != Normal then (sig, st1) else ExecList(ss[1..], st1, fuel)
  }

  /** `interpretStatement`. */
  function ExecStmt(s: Stmt, st: State, fuel: nat): (r: (Signal, State))
    decreases fuel, 0
  {
    if fuel == 0 then (OutOfFuel, st)
    else match s
      case Assign(n, rhs) =>
        var (sig, v, st1) := Eval(rhs, st, fuel - 1);
        if sig != Normal then (sig, st1)
        else (Normal, st1.(env := AssignVariable(st1.env, n, v)))
      case CallStmt(name, args) =>
        var (sig, vals, st1) := EvalArgs(args, st, fuel - 1);
        if sig != Normal then (sig, st1)
        else
          var (sig2, _, st2) := CallFunction(name, vals, st1, fuel - 1);
          (sig2, st2)
      case Declare(d) => (Normal, st.(funcs := RegisterFunction(st.funcs, d)))
      case Global(names) => (Normal, st.(env := DeclareGlobals(st.env, names)))
      case Local(names) => (Normal, st.(env := DeclareLocals(st.env, names)))
      case If(c, thenBody, elseBody) =>
        var (sig, v, st1) := EvalCondition(c, st, fuel - 1);
        if sig != Normal then (sig, st1)
        else if Truthy(v) then ExecList(thenBody, st1, fuel - 1)
        else ExecList(elseBody, st1, fuel - 1)
      case Switch(selector, cases) =>
        var (sig, v, st1) := Eval(selector, st, fuel - 1);
        if sig != Normal then (sig, st1) else ExecCases(cases, v, st1, fuel - 1)
      case While(c, body) => ExecWhile(c, body, st, fuel - 1)
      case Return(_) => (Normal, st)
      case ExitCode => (Exit, st)
  }

  /** `interpretWhileStatement`: the condition is evaluated before every
      iteration, the first included. */
  function ExecWhile(c: Condition, body: seq<Stmt>, st: State, fuel: nat): (r: (Signal, State))
    decreases fuel, 0
  {
    if fuel == 0 then (OutOfFuel, st)
    else
      var (sig, v, st1) := EvalCondition(c, st, fuel - 1);
      if sig != Normal then (sig, st1)
      else if !Truthy(v) then (Normal, st1)
      else
        var (sig2, st2) := ExecList(body, st1, fuel - 1);
        if sig2 != Normal then (sig2, st2) else ExecWhile(c, body, st2, fuel - 1)
  }

  /** The case loop of `interpretSwitchStatement`: case values are evaluated
      in order until one equals the selector, and only that body runs. */
  function ExecCases(cases: seq<CaseBlock>, selector: Value, st: State, fuel: nat): (r: (Signal, State))
    decreases fuel, |cases|
  {
    if cases == [] then (Normal, st)
    else if fuel == 0 then (OutOfFuel, st)
    else
      var (sig, v, st1) := Eval(cases[0].value, st, fuel);
      if sig != Normal then (sig, st1)
      else if Equals(selector, v) then ExecList(cases[0].body, st1, fuel - 1)
      else ExecCases(cases[1..], selector, st1, fuel)
  }
}
