/**
 * What a run never undoes.  Every evaluation and every statement leaves
 * the scope chain with as many frames as it found, keeps every declared
 * function declared, only appends to the output trace, only consumes
 * input lines from the front, and never hands out a marker identity
 * twice.  One lemma per interpreter routine, by the same mutual
 * induction the routines recurse by.
 */
module AdvanceProps {
  import opened Wrappers
  import opened Ast
  import opened Values
  import opened Scope
  import opened Interpreter

  lemma AdvancesRefl(a: State)
    ensures Advances(a, a)
  {
    assert a.input[|a.input| - |a.input|..] == a.input;
  }

  lemma AdvancesTrans(a: State, b: State, c: State)
    requires Advances(a, b) && Advances(b, c)
    ensures Advances(a, c)
  {
    var n := |a.input| - |b.input|;
    assert c.input == a.input[n..][|b.input| - |c.input|..];
    assert a.input[n..][|b.input| - |c.input|..] == a.input[|a.input| - |c.input|..];
  }

  /** `evaluateExpression` (Interpreter.java:264-279). */
  lemma {:induction false} EvalAdvances(e: Expr, st: State, fuel: nat)
    ensures Advances(st, Eval(e, st, fuel).2)
    decreases fuel, 0
  {
    AdvancesRefl(st);
    if fuel > 0 {
      match e
      case Literal(_, _) =>
      case Variable(_) =>
      case Call(name, args) =>
        var (sig, vals, st1) := EvalArgs(args, st, fuel - 1);
        EvalArgsAdvances(args, st, fuel - 1);
        if sig == Normal {
          CallFunctionAdvances(name, vals, st1, fuel - 1);
          AdvancesTrans(st, st1, CallFunction(name, vals, st1, fuel - 1).2);
        }
    }
  }

  lemma {:induction false} EvalArgsAdvances(args: seq<Expr>, st: State, fuel: nat)
    ensures Advances(st, EvalArgs(args, st, fuel).2)
    decreases fuel, |args|
  {
    if args == [] {
      AdvancesRefl(st);
    } else {
      var (sig, v, st1) := Eval(args[0], st, fuel);
      EvalAdvances(args[0], st, fuel);
      if sig == Normal {
        EvalArgsAdvances(args[1..], st1, fuel);
        AdvancesTrans(st, st1, EvalArgs(args[1..], st1, fuel).2);
      }
    }
  }

  lemma {:induction false} EvalOperandAdvances(e: Option<Expr>, st: State, fuel: nat)
    ensures Advances(st, EvalOperand(e, st, fuel).2)
    decreases fuel, 1
  {
    match e
    case None => AdvancesRefl(st);
    case Some(x) => EvalAdvances(x, st, fuel);
  }

  /** `evaluateCondition` (Interpreter.java:282-297). */
  lemma {:induction false} EvalConditionAdvances(c: Condition, st: State, fuel: nat)
    ensures Advances(st, EvalCondition(c, st, fuel).2)
    decreases fuel, 2
  {
    var (sig, left, st1) := EvalOperand(c.left, st, fuel);
    EvalOperandAdvances(c.left, st, fuel);
    if sig == Normal {
      EvalOperandAdvances(c.right, st1, fuel);
      AdvancesTrans(st, st1, EvalOperand(c.right, st1, fuel).2);
    }
  }

  /** `callFunction` (Interpreter.java:184-233). */
  lemma {:induction false} CallFunctionAdvances(name: string, args: seq<Value>, st: State, fuel: nat)
    ensures Advances(st, CallFunction(name, args, st, fuel).2)
    decreases fuel, 0
  {
    if fuel == 0 {
      AdvancesRefl(st);
    } else {
      match GetFunction(st.funcs, name)
      case Some(d) => ExecuteFunctionAdvances(d, args, st, fuel - 1);
      case None => CallBuiltinAdvances(name, args, st);
    }
  }

  lemma {:induction false} ExecuteFunctionAdvances(d: FunctionDecl, args: seq<Value>, st: State, fuel: nat)
    ensures Advances(st, ExecuteFunction(d, args, st, fuel).2)
    decreases fuel, |d.body| + 1
  {
    var frame := BindParameters(d.params, args, |d.params|);
    var inner := st.(env := [frame, Root(st.env)]);
    ExecListAdvances(d.body, inner, fuel);
  }

  lemma CallBuiltinAdvances(name: string, args: seq<Value>, st: State)
    ensures Advances(st, CallBuiltin(name, args, st).2)
  {
    AdvancesRefl(st);
    if name == "puppetevent" && st.input != [] {
      assert st.input[1..] == st.input[|st.input| - |st.input[1..]|..];
    }
  }

  /** `interpretStatements` (Interpreter.java:39-43). */
  lemma {:induction false} ExecListAdvances(ss: seq<Stmt>, st: State, fuel: nat)
    ensures Advances(st, ExecList(ss, st, fuel).1)
    decreases fuel, |ss|
  {
    if ss == [] {
      AdvancesRefl(st);
    } else {
      var (sig, st1) := ExecStmt(ss[0], st, fuel);
      ExecStmtAdvances(ss[0], st, fuel);
      if sig == Normal {
        ExecListAdvances(ss[1..], st1, fuel);
        AdvancesTrans(st, st1, ExecList(ss[1..], st1, fuel).1);
      }
    }
  }

  /** `interpretStatement` (Interpreter.java:48-76). */
  lemma {:induction false} ExecStmtAdvances(s: Stmt, st: State, fuel: nat)
    ensures Advances(st, ExecStmt(s, st, fuel).1)
    decreases fuel, 0
  {
    AdvancesRefl(st);
    if fuel > 0 {
      match s
      case Assign(n, rhs) =>
        EvalAdvances(rhs, st, fuel - 1);
      case CallStmt(name, args) =>
        CallStmtAdvances(name, args, st, fuel - 1);
      case Declare(d) =>
      case Global(_) =>
      case Local(_) =>
      case If(c, thenBody, elseBody) =>
        IfAdvances(c, thenBody, elseBody, st, fuel - 1);
      case Switch(selector, cases) =>
        var (sig, v, st1) := Eval(selector, st, fuel - 1);
        EvalAdvances(selector, st, fuel - 1);
        if sig == Normal {
          ExecCasesAdvances(cases, v, st1, fuel - 1);
          AdvancesTrans(st, st1, ExecCases(cases, v, st1, fuel - 1).1);
        }
      case While(c, body) =>
        ExecWhileAdvances(c, body, st, fuel - 1);
      case Return(_) =>
      case ExitCode =>
    }
  }

  lemma {:induction false} CallStmtAdvances(name: string, args: seq<Expr>, st: State, fuel: nat)
    ensures Advances(st, ExecStmt(CallStmt(name, args), st, fuel + 1).1)
    decreases fuel, |args| + 1
  {
    var (sig, vals, st1) := EvalArgs(args, st, fuel);
    EvalArgsAdvances(args, st, fuel);
    if sig == Normal {
      CallFunctionAdvances(name, vals, st1, fuel);
      AdvancesTrans(st, st1, CallFunction(name, vals, st1, fuel).2);
    }
  }

  lemma {:induction false} IfAdvances(c: Condition, thenBody: seq<Stmt>, elseBody: seq<Stmt>, st: State, fuel: nat)
    ensures Advances(st, ExecStmt(If(c, thenBody, elseBody), st, fuel + 1).1)
    decreases fuel, |thenBody| + |elseBody| + 3
  {
    var (sig, v, st1) := EvalCondition(c, st, fuel);
    EvalConditionAdvances(c, st, fuel);
    if sig == Normal {
      var body := if Truthy(v) then thenBody else elseBody;
      ExecListAdvances(body, st1, fuel);
      AdvancesTrans(st, st1, ExecList(body, st1, fuel).1);
    }
  }

  /** `interpretWhileStatement` (Interpreter.java:81-96). */
  lemma {:induction false} ExecWhileAdvances(c: Condition, body: seq<Stmt>, st: State, fuel: nat)
    ensures Advances(st, ExecWhile(c, body, st, fuel).1)
    decreases fuel, 0
  {
    AdvancesRefl(st);
    if fuel > 0 {
      var (sig, v, st1) := EvalCondition(c, st, fuel - 1);
      EvalConditionAdvances(c, st, fuel - 1);
      if sig == Normal && Truthy(v) {
        WhileRoundAdvances(c, body, st1, fuel - 1);
        AdvancesTrans(st, st1, ExecWhile(c, body, st, fuel).1);
      }
    }
  }

  /** One round of the loop after a true condition: the body, then the rest
      of the loop unless the body stopped it. */
  lemma {:induction false} WhileRoundAdvances(c: Condition, body: seq<Stmt>, st: State, fuel: nat)
    ensures var (sig, st1) := ExecList(body, st, fuel);
      Advances(st, if sig != Normal then st1 else ExecWhile(c, body, st1, fuel).1)
    decreases fuel, |body| + 1
  {
    var (sig, st1) := ExecList(body, st, fuel);
    ExecListAdvances(body, st, fuel);
    if sig == Normal {
      ExecWhileAdvances(c, body, st1, fuel);
      AdvancesTrans(st, st1, ExecWhile(c, body, st1, fuel).1);
    }
  }

  /** The case loop of `interpretSwitchStatement` (Interpreter.java:98-109). */
  lemma {:induction false} ExecCasesAdvances(cases: seq<CaseBlock>, sel: Value, st: State, fuel: nat)
    ensures Advances(st, ExecCases(cases, sel, st, fuel).1)
    decreases fuel, |cases|
  {
    AdvancesRefl(st);
    if cases != [] && fuel > 0 {
      var (sig, v, st1) := Eval(cases[0].value, st, fuel);
      EvalAdvances(cases[0].value, st, fuel);
      if sig == Normal {
        if Equals(sel, v) {
          ExecListAdvances(cases[0].body, st1, fuel - 1);
          AdvancesTrans(st, st1, ExecList(cases[0].body, st1, fuel - 1).1);
        } else {
          ExecCasesAdvances(cases[1..], sel, st1, fuel);
          AdvancesTrans(st, st1, ExecCases(cases[1..], sel, st1, fuel).1);
        }
      }
    }
  }
}
