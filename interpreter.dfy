/** The statement loop of `_evaluate` and `interpret`
    (src/interpreterProj.py:924-926, 1005-1041), and the class `Interpreter`
    whose function table persists from one `interpret` call to the next. */
module Interpreting {
  import opened Util
  import opened Syntax
  import opened Evaluation

  /** What one statement gives: "defined successfully" or a value. */
  datatype StmtValue = Defined | Value(v: Value)

  /** The state after some statements: the function table, the statements'
      results, what was printed, and the exception that stopped the loop. */
  datatype Execution = Execution(globals: Globals, results: seq<StmtValue>, log: seq<Line>, stop: Option<Exception>)

  /** One more statement, evaluated with an empty local environment. A
      definition replaces any earlier one of the same name. */
  function Step(x: Execution, s: Stmt, fuel: nat): (y: Execution)
    requires x.stop.None?
    ensures y.stop.None? ==> |y.results| == |x.results| + 1
    ensures y.stop.Some? ==> y.results == x.results && y.globals == x.globals && !y.stop.value.TypeErr?
  {
    match s
    case FuncDef(name, params, body) =>
      Execution(x.globals[name := FunDef(params, body)], x.results + [Defined], x.log, None)
    case ExprStmt(e) =>
      var r := Evaluate(x.globals, e, [], fuel);
      if r.out.Raise? then Execution(x.globals, x.results, x.log + r.log, Some(r.out.exc))
      else Execution(x.globals, x.results + [Value(r.out.v)], x.log + r.log, None)
  }

  /** `_evaluate` on the statement list: the statements in order, until one
      raises an exception `_evaluate` does not catch. A `TypeError` never
      stops the loop. */
  function Execute(g: Globals, stmts: seq<Stmt>, fuel: nat): (x: Execution)
    ensures x.stop.Some? ==> !x.stop.value.TypeErr?
    ensures |x.results| <= |stmts|
    ensures x.stop.None? ==> |x.results| == |stmts|
    decreases |stmts|
  {
    if stmts == [] then Execution(g, [], [], None)
    else
      var x := Execute(g, stmts[..|stmts| - 1], fuel);
      if x.stop.Some? then x else Step(x, stmts[|stmts| - 1], fuel)
  }

  lemma ExecuteLast(g: Globals, stmts: seq<Stmt>, i: nat, fuel: nat)
    requires i < |stmts|
    ensures Execute(g, stmts[..i + 1], fuel) ==
      var x := Execute(g, stmts[..i], fuel);
      if x.stop.Some? then x else Step(x, stmts[i], fuel)
  {
    assert stmts[..i + 1][..i] == stmts[..i];
  }

  /** Once the loop has stopped, later statements change nothing. */
  lemma {:induction false} ExecuteStopped(g: Globals, stmts: seq<Stmt>, i: nat, fuel: nat)
    requires i <= |stmts| && Execute(g, stmts[..i], fuel).stop.Some?
    ensures Execute(g, stmts, fuel) == Execute(g, stmts[..i], fuel)
    decreases |stmts| - i
  {
    if i < |stmts| {
      ExecuteLast(g, stmts, i, fuel);
      ExecuteStopped(g, stmts, i + 1, fuel);
      assert stmts[..|stmts|] == stmts;
    } else {
      assert stmts[..i] == stmts;
    }
  }

  /** What `interpret` returns: the list of results, or None after printing
      a `RuntimeError`; an `IndexError` is not caught and escapes. */
  datatype Answer = Answered(results: seq<StmtValue>) | Failed(fault: RuntimeFault) | Escaped

  function AnswerOf(x: Execution): Answer {
    match x.stop
    case None => Answered(x.results)
    case Some(RuntimeErr(f)) => Failed(f)
    case Some(_) => Escaped
  }

  /** What `interpret` prints: the run's lines, then a caught `RuntimeError`. */
  function Printed(x: Execution): seq<Line> {
    match x.stop
    case Some(RuntimeErr(f)) => x.log + [Reported(f)]
    case _ => x.log
  }

  /** `interpret` prints a `RuntimeError` last exactly when it returns None
      for it; otherwise it prints only what the statements printed. */
  lemma AnswerPrinted(x: Execution)
    ensures forall f :: AnswerOf(x) == Failed(f) <==> Printed(x) == x.log + [Reported(f)]
    ensures !AnswerOf(x).Failed? ==> Printed(x) == x.log
  {
    forall f | Printed(x) == x.log + [Reported(f)]
      ensures AnswerOf(x) == Failed(f)
    {
      assert Printed(x)[|x.log|] == Reported(f);
    }
  }

  class Interpreter {
    var globalEnv: Globals
    var output: seq<Line>
    /** How deep user-function calls may nest before `RecursionError`. */
    const fuel: nat

    constructor(fuel: nat)
      ensures globalEnv == map[] && output == [] && this.fuel == fuel
    {
      globalEnv := map[];
      output := [];
      this.fuel := fuel;
    }

    /** `visit_FuncDef`: records the definition under its name. */
    method VisitFuncDef(name: string, params: seq<string>, body: Node) returns (r: StmtValue)
      modifies this
      ensures globalEnv == old(globalEnv)[name := FunDef(params, body)]
      ensures output == old(output) && r == Defined
    {
      globalEnv := globalEnv[name := FunDef(params, body)];
      r := Defined;
    }

    /** `_evaluate` on a statement list. */
    method EvaluateStatements(stmts: seq<Stmt>) returns (results: seq<StmtValue>, stop: Option<Exception>)
      modifies this
      ensures var x := Execute(old(globalEnv), stmts, fuel);
        globalEnv == x.globals && output == old(output) + x.log && results == x.results && stop == x.stop
    {
      ghost var g0 := globalEnv;
      ghost var out0 := output;
      results := [];
      stop := None;
      var i := 0;
      assert stmts[..0] == [];
      while i < |stmts| && stop.None?
        invariant 0 <= i <= |stmts|
        invariant |out0| <= |output| && output[..|out0|] == out0
        invariant Execute(g0, stmts[..i], fuel) == Execution(globalEnv, results, output[|out0|..], stop)
        invariant stop.Some? ==> Execute(g0, stmts, fuel) == Execute(g0, stmts[..i], fuel)
        decreases |stmts| - i
      {
        ExecuteLast(g0, stmts, i, fuel);
        ghost var before := output;
        match stmts[i] {
          case FuncDef(name, params, body) =>
            var d := VisitFuncDef(name, params, body);
            results := results + [d];
          case ExprStmt(e) =>
            var r := Evaluate(globalEnv, e, [], fuel);
            SliceAppend(output, |out0|, r.log);
            output := output + r.log;
            if r.out.Raise? {
              stop := Some(r.out.exc);
            } else {
              results := results + [Value(r.out.v)];
            }
        }
        i := i + 1;
        if stop.Some? {
          ExecuteStopped(g0, stmts, i, fuel);
        }
      }
      if stop.None? {
        assert stmts[..i] == stmts;
      }
      SplitAt(output, |out0|);
    }

    /** `interpret`: a `RuntimeError` is printed and gives None; the function
        table keeps every definition made before it. */
    method Interpret(stmts: seq<Stmt>) returns (a: Answer)
      modifies this
      ensures var x := Execute(old(globalEnv), stmts, fuel);
        globalEnv == x.globals && a == AnswerOf(x) && output == old(output) + Printed(x)
    {
      var results, stop := EvaluateStatements(stmts);
      if stop.None? {
        a := Answered(results);
      } else if stop.value.RuntimeErr? {
        output := output + [Reported(stop.value.r)];
        a := Failed(stop.value.r);
      } else {
        a := Escaped;
      }
    }
  }
}
