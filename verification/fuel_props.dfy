/**
 * Fuel is only a bound on the length of a run: a run that finishes with
 * some fuel finishes with the same outcome, the same value and the same
 * final state given any larger amount.  So the fuel argument of the
 * interpreter never changes what a script does, it only decides how much
 * of a non-terminating script is looked at.
 */
module FuelProps {
  import opened Wrappers
  import opened Ast
  import opened Values
  import opened Scope
  import opened Interpreter

  lemma {:induction false} EvalMonotone(e: Expr, st: State, f: nat, g: nat)
    requires f <= g && Eval(e, st, f).0 != OutOfFuel
    ensures Eval(e, st, g) == Eval(e, st, f)
    decreases f, 0
  {
    match e
    case Literal(_, _) =>
    case Variable(_) =>
    case Call(name, args) =>
      var (sig, vals, st1) := EvalArgs(args, st, f - 1);
      EvalArgsMonotone(args, st, f - 1, g - 1);
      if sig == Normal {
        CallFunctionMonotone(name, vals, st1, f - 1, g - 1);
      }
  }

  lemma {:induction false} EvalArgsMonotone(args: seq<Expr>, st: State, f: nat, g: nat)
    requires f <= g && EvalArgs(args, st, f).0 != OutOfFuel
    ensures EvalArgs(args, st, g) == EvalArgs(args, st, f)
    decreases f, |args|
  {
    if args != [] {
      var (sig, v, st1) := Eval(args[0], st, f);
      EvalMonotone(args[0], st, f, g);
      if sig == Normal {
        EvalArgsMonotone(args[1..], st1, f, g);
      }
    }
  }

  lemma {:induction false} EvalOperandMonotone(e: Option<Expr>, st: State, f: nat, g: nat)
    requires f <= g && EvalOperand(e, st, f).0 != OutOfFuel
    ensures EvalOperand(e, st, g) == EvalOperand(e, st, f)
    decreases f, 1
  {
    if e.Some? {
      EvalMonotone(e.value, st, f, g);
    }
  }

  lemma {:induction false} EvalConditionMonotone(c: Condition, st: State, f: nat, g: nat)
    requires f <= g && EvalCondition(c, st, f).0 != OutOfFuel
    ensures EvalCondition(c, st, g) == EvalCondition(c, st, f)
    decreases f, 2
  {
    var (sig, left, st1) := EvalOperand(c.left, st, f);
    EvalOperandMonotone(c.left, st, f, g);
    if sig == Normal {
      EvalOperandMonotone(c.right, st1, f, g);
    }
  }

  lemma {:induction false} CallFunctionMonotone(name: string, args: seq<Value>, st: State, f: nat, g: nat)
    requires f <= g && CallFunction(name, args, st, f).0 != OutOfFuel
    ensures CallFunction(name, args, st, g) == CallFunction(name, args, st, f)
    decreases f, 0
  {
    match GetFunction(st.funcs, name)
    case Some(d) => ExecuteFunctionMonotone(d, args, st, f - 1, g - 1);
    case None =>
  }

  lemma {:induction false} ExecuteFunctionMonotone(d: FunctionDecl, args: seq<Value>, st: State, f: nat, g: nat)
    requires f <= g && ExecuteFunction(d, args, st, f).0 != OutOfFuel
    ensures ExecuteFunction(d, args, st, g) == ExecuteFunction(d, args, st, f)
    decreases f, |d.body| + 1
  {
    var frame := BindParameters(d.params, args, |d.params|);
    ExecListMonotone(d.body, st.(env := [frame, Root(st.env)]), f, g);
  }

  lemma {:induction false} ExecListMonotone(ss: seq<Stmt>, st: State, f: nat, g: nat)
    requires f <= g && ExecList(ss, st, f).0 != OutOfFuel
    ensures ExecList(ss, st, g) == ExecList(ss, st, f)
    decreases f, |ss|
  {
    if ss != [] {
      var (sig, st1) := ExecStmt(ss[0], st, f);
      ExecStmtMonotone(ss[0], st, f, g);
      if sig == Normal {
        ExecListMonotone(ss[1..], st1, f, g);
      }
    }
  }

  lemma {:induction false} ExecStmtMonotone(s: Stmt, st: State, f: nat, g: nat)
    requires f <= g && ExecStmt(s, st, f).0 != OutOfFuel
    ensures ExecStmt(s, st, g) == ExecStmt(s, st, f)
    decreases f, 0
  {
    match s
    case Assign(n, rhs) =>
      AssignMonotone(n, rhs, st, f, g);
    case CallStmt(name, args) =>
      CallStmtMonotone(name, args, st, f, g);
    case Declare(_) =>
    case Global(_) =>
    case Local(_) =>
    case If(c, thenBody, elseBody) =>
      IfMonotone(c, thenBody, elseBody, st, f, g);
    case Switch(selector, cases) =>
      SwitchMonotone(selector, cases, st, f, g);
    case While(c, body) =>
      ExecWhileMonotone(c, body, st, f - 1, g - 1);
    case Return(_) =>
    case ExitCode =>
  }

  lemma {:induction false} AssignMonotone(n: string, rhs: Expr, st: State, f: nat, g: nat)
    requires 1 <= f <= g && ExecStmt(Assign(n, rhs), st, f).0 != OutOfFuel
    ensures ExecStmt(Assign(n, rhs), st, g) == ExecStmt(Assign(n, rhs), st, f)
    decreases f - 1, 1
  {
    EvalMonotone(rhs, st, f - 1, g - 1);
  }

  lemma {:induction false} CallStmtMonotone(name: string, args: seq<Expr>, st: State, f: nat, g: nat)
    requires 1 <= f <= g && ExecStmt(CallStmt(name, args), st, f).0 != OutOfFuel
    ensures ExecStmt(CallStmt(name, args), st, g) == ExecStmt(CallStmt(name, args), st, f)
    decreases f - 1, |args| + 1
  {
    var (sig, vals, st1) := EvalArgs(args, st, f - 1);
    EvalArgsMonotone(args, st, f - 1, g - 1);
    if sig == Normal {
      CallFunctionMonotone(name, vals, st1, f - 1, g - 1);
    }
  }

  lemma {:induction false} IfMonotone(c: Condition, thenBody: seq<Stmt>, elseBody: seq<Stmt>, st: State, f: nat, g: nat)
    requires 1 <= f <= g && ExecStmt(If(c, thenBody, elseBody), st, f).0 != OutOfFuel
    ensures ExecStmt(If(c, thenBody, elseBody), st, g) == ExecStmt(If(c, thenBody, elseBody), st, f)
    decreases f - 1, |thenBody| + |elseBody| + 3
  {
    var (sig, v, st1) := EvalCondition(c, st, f - 1);
    EvalConditionMonotone(c, st, f - 1, g - 1);
    if sig == Normal {
      if Truthy(v) {
        ExecListMonotone(thenBody, st1, f - 1, g - 1);
      } else {
        ExecListMonotone(elseBody, st1, f - 1, g - 1);
      }
    }
  }

  lemma {:induction false} SwitchMonotone(selector: Expr, cases: seq<CaseBlock>, st: State, f: nat, g: nat)
    requires 1 <= f <= g && ExecStmt(Switch(selector, cases), st, f).0 != OutOfFuel
    ensures ExecStmt(Switch(selector, cases), st, g) == ExecStmt(Switch(selector, cases), st, f)
    decreases f - 1, |cases| + 1
  {
    var (sig, v, st1) := Eval(selector, st, f - 1);
    EvalMonotone(selector, st, f - 1, g - 1);
    if sig == Normal {
      ExecCasesMonotone(cases, v, st1, f - 1, g - 1);
    }
  }

  lemma {:induction false} ExecWhileMonotone(c: Condition, body: seq<Stmt>, st: State, f: nat, g: nat)
    requires f <= g && ExecWhile(c, body, st, f).0 != OutOfFuel
    ensures ExecWhile(c, body, st, g) == ExecWhile(c, body, st, f)
    decreases f, 0
  {
    var (sig, v, st1) := EvalCondition(c, st, f - 1);
    EvalConditionMonotone(c, st, f - 1, g - 1);
    if sig == Normal && Truthy(v) {
      var (sig2, st2) := ExecList(body, st1, f - 1);
      ExecListMonotone(body, st1, f - 1, g - 1);
      if sig2 == Normal {
        ExecWhileMonotone(c, body, st2, f - 1, g - 1);
      }
    }
  }

  lemma {:induction false} ExecCasesMonotone(cases: seq<CaseBlock>, sel: Value, st: State, f: nat, g: nat)
    requires f <= g && ExecCases(cases, sel, st, f).0 != OutOfFuel
    ensures ExecCases(cases, sel, st, g) == ExecCases(cases, sel, st, f)
    decreases f, |cases|
  {
    if cases != [] {
      var (sig, v, st1) := Eval(cases[0].value, st, f);
      EvalMonotone(cases[0].value, st, f, g);
      if sig == Normal {
        if Equals(sel, v) {
          ExecListMonotone(cases[0].body, st1, f - 1, g - 1);
        } else {
          ExecCasesMonotone(cases[1..], sel, st1, f, g);
        }
      }
    }
  }
}
