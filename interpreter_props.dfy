/** What `interpret` promises about a statement list: which results are
    "defined successfully", which function table it leaves, and that
    running two lists one after the other is running their concatenation
    (the table persists between calls). */
module InterpreterProperties {
  import opened Util
  import opened Syntax
  import opened Evaluation
  import opened Interpreting

  /** The function table after the definitions among `stmts`, front to back. */
  function Define(g: Globals, stmts: seq<Stmt>): Globals
    decreases |stmts|
  {
    if stmts == [] then g
    else Define(DefineOne(g, stmts[0]), stmts[1..])
  }

  function DefineOne(g: Globals, s: Stmt): Globals {
    if s.FuncDef? then g[s.name := FunDef(s.params, s.body)] else g
  }

  lemma {:induction false} DefineSnoc(g: Globals, stmts: seq<Stmt>, s: Stmt)
    ensures Define(g, stmts + [s]) == DefineOne(Define(g, stmts), s)
    decreases |stmts|
  {
    if stmts == [] {
      assert [] + [s] == [s];
      assert [s][1..] == [];
    } else {
      assert (stmts + [s])[1..] == stmts[1..] + [s];
      DefineSnoc(DefineOne(g, stmts[0]), stmts[1..], s);
    }
  }

  /** The statements run are the first |results| of `stmts`: each result is
      "defined successfully" exactly for a definition, the table holds the
      definitions among them, and a stop comes from the next statement,
      which is an expression. */
  predicate Accounts(g: Globals, stmts: seq<Stmt>, x: Execution) {
    var k := |x.results|;
    && k <= |stmts|
    && x.globals == Define(g, stmts[..k])
    && (x.stop.Some? ==> k < |stmts| && stmts[k].ExprStmt?)
    && (forall i :: 0 <= i < k ==> (x.results[i] == Defined <==> stmts[i].FuncDef?))
  }

  lemma {:induction false} ExecuteDefines(g: Globals, stmts: seq<Stmt>, fuel: nat)
    ensures Accounts(g, stmts, Execute(g, stmts, fuel))
    decreases |stmts|
  {
    if stmts == [] {
      assert stmts[..0] == [];
    } else {
      var p := stmts[..|stmts| - 1];
      ExecuteDefines(g, p, fuel);
      var x := Execute(g, p, fuel);
      if x.stop.Some? {
        AccountsStopped(g, stmts, x);
      } else {
        AccountsStep(g, stmts, x, fuel);
      }
    }
  }

  lemma AccountsStopped(g: Globals, stmts: seq<Stmt>, x: Execution)
    requires stmts != [] && Accounts(g, stmts[..|stmts| - 1], x) && x.stop.Some?
    ensures Accounts(g, stmts, x)
  {
    var p := stmts[..|stmts| - 1];
    assert p[..|x.results|] == stmts[..|x.results|];
    assert forall i :: 0 <= i < |x.results| ==> p[i] == stmts[i];
  }

  lemma AccountsStep(g: Globals, stmts: seq<Stmt>, x: Execution, fuel: nat)
    requires stmts != [] && x.stop.None?
    requires var p := stmts[..|stmts| - 1]; Accounts(g, p, x) && |x.results| == |p|
    ensures Accounts(g, stmts, Step(x, stmts[|stmts| - 1], fuel))
  {
    var n := |stmts|;
    var p := stmts[..n - 1];
    var s := stmts[n - 1];
    var y := Step(x, s, fuel);
    assert p[..|x.results|] == p;
    assert forall i :: 0 <= i < |x.results| ==> p[i] == stmts[i];
    if y.stop.None? {
      assert stmts[..|y.results|] == stmts == p + [s];
      DefineSnoc(g, p, s);
    }
  }

  /** Two runs one after the other, as one. */
  function Join(x: Execution, y: Execution): Execution {
    Execution(y.globals, x.results + y.results, x.log + y.log, y.stop)
  }

  lemma StepJoin(x: Execution, y: Execution, s: Stmt, fuel: nat)
    requires y.stop.None?
    ensures Step(Join(x, y), s, fuel) == Join(x, Step(y, s, fuel))
  {
    if s.FuncDef? {
      assert x.results + y.results + [Defined] == x.results + (y.results + [Defined]);
    } else {
      var r := Evaluate(y.globals, s.expr, [], fuel);
      assert x.log + y.log + r.log == x.log + (y.log + r.log);
      if r.out.Val? {
        assert x.results + y.results + [Value(r.out.v)] == x.results + (y.results + [Value(r.out.v)]);
      }
    }
  }

  /** Running `a` and then `b` with the table `a` left is running `a + b`:
      definitions persist from one statement list to the next. */
  lemma {:induction false} ExecuteAppend(g: Globals, a: seq<Stmt>, b: seq<Stmt>, fuel: nat)
    requires Execute(g, a, fuel).stop.None?
    ensures Execute(g, a + b, fuel) == Join(Execute(g, a, fuel), Execute(Execute(g, a, fuel).globals, b, fuel))
    decreases |b|
  {
    var x := Execute(g, a, fuel);
    if b == [] {
      assert a + b == a;
      assert x.results + [] == x.results && x.log + [] == x.log;
    } else {
      var b' := b[..|b| - 1];
      var s := b[|b| - 1];
      assert (a + b)[..|a + b| - 1] == a + b';
      assert (a + b)[|a + b| - 1] == s;
      ExecuteAppend(g, a, b', fuel);
      var y' := Execute(x.globals, b', fuel);
      if y'.stop.None? {
        StepJoin(x, y', s, fuel);
      }
    }
  }

  /** A list of definitions alone always succeeds, every result "defined
      successfully". */
  lemma DefinitionsOnly(g: Globals, stmts: seq<Stmt>, fuel: nat)
    requires forall i :: 0 <= i < |stmts| ==> stmts[i].FuncDef?
    ensures Execute(g, stmts, fuel).stop.None?
    ensures Execute(g, stmts, fuel).globals == Define(g, stmts)
    ensures forall i :: 0 <= i < |stmts| ==> Execute(g, stmts, fuel).results[i] == Defined
  {
    ExecuteDefines(g, stmts, fuel);
    assert stmts[..|stmts|] == stmts;
  }
}
