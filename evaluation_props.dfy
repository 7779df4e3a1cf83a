/** What the evaluator does, proved about `Evaluation`: Python's operator
    semantics in `visit_BinOp`, argument binding in `visit_FuncCall`, the
    `cond or rest` form, and the two recursive programs the test suite of
    src/interpreterProj.py runs (a factorial and a repeated print). */
module EvaluationProperties {
  import opened Util
  import opened Syntax
  import opened Evaluation

  // ---------------------------------------------------------------------
  // Operators

  /** When an operator gives a value: arithmetic on two integers (and a
      non-zero divisor), `&&`/`||` on two booleans, `==`/`!=` always, an
      ordering whenever neither side is None. */
  lemma BinaryDefinedness(op: BinOperator, l: Value, r: Value)
    ensures IsArithmetic(op) ==>
      (Binary(op, l, r).Val? <==> l.IntV? && r.IntV? && !(op in {Div, Mod} && r.i == 0))
    ensures op in {And, Or} ==> (Binary(op, l, r).Val? <==> l.BoolV? && r.BoolV?)
    ensures op in {Eq, Ne} ==> Binary(op, l, r).Val?
    ensures IsOrdering(op) ==> (Binary(op, l, r).Val? <==> !l.NoneV? && !r.NoneV?)
  {
  }

  /** The only `RuntimeError` of an operator is a zero divisor, reported
      before the left operand's type is looked at (unless it is a bool). */
  lemma BinaryRuntimeErrors(op: BinOperator, l: Value, r: Value)
    ensures Binary(op, l, r).Raise? && Binary(op, l, r).exc.RuntimeErr? <==>
      op in {Div, Mod} && r == IntV(0) && !l.BoolV?
    ensures Binary(op, l, r) == Raise(RuntimeErr(DivisionByZero)) <==> op == Div && r == IntV(0) && !l.BoolV?
    ensures Binary(op, l, r) == Raise(RuntimeErr(ModuloByZero)) <==> op == Mod && r == IntV(0) && !l.BoolV?
  {
  }

  /** A bool in arithmetic is the final "Type error" of the chain. */
  lemma BoolInArithmetic(op: BinOperator, l: Value, r: Value)
    requires IsArithmetic(op) && (l.BoolV? || r.BoolV?)
    ensures Binary(op, l, r) == Raise(TypeErr(TypeMismatch))
  {
  }

  /** `/` and `%` are Python's floor division and remainder. */
  lemma DivisionIsFloored(a: int, b: int)
    requires b != 0
    ensures Binary(Div, IntV(a), IntV(b)).Val? && Binary(Mod, IntV(a), IntV(b)).Val?
    ensures var q := Binary(Div, IntV(a), IntV(b)).v.i;
      var m := Binary(Mod, IntV(a), IntV(b)).v.i;
      && a == b * q + m
      && (b > 0 ==> 0 <= m < b)
      && (b < 0 ==> b < m <= 0)
  {
    FloorDivision(a, b);
  }

  /** Equality is Python's: `True == 1`, `False == 0`, `None == None`, and
      None equals nothing else. */
  lemma PythonEquality(v: Value)
    ensures PyEq(BoolV(true), IntV(1)) && PyEq(BoolV(false), IntV(0))
    ensures PyEq(v, NoneV) <==> v.NoneV?
    ensures PyEq(v, v)
  {
  }

  // ---------------------------------------------------------------------
  // Environments and argument binding

  /** Binding parameters to values one after another, as the dict
      comprehension of `visit_FuncCall` does. */
  function BindAll(acc: Env, ps: seq<string>, vs: seq<Value>): Env
    requires |ps| == |vs|
    decreases |ps|
  {
    if ps == [] then acc else BindAll(Bind(acc, ps[0], vs[0]), ps[1..], vs[1..])
  }

  /** A parameter named twice gets the value bound last. */
  lemma {:induction false} LookupBindAllLast(acc: Env, ps: seq<string>, vs: seq<Value>, j: nat)
    requires |ps| == |vs| && j < |ps|
    requires forall k :: j < k < |ps| ==> ps[k] != ps[j]
    ensures Lookup(BindAll(acc, ps, vs), ps[j]) == vs[j]
    decreases |ps|
  {
    LookupBind(acc, ps[0], vs[0], ps[j]);
    if j == 0 {
      LookupBindAllAbsent(Bind(acc, ps[0], vs[0]), ps[1..], vs[1..], ps[0]);
    } else {
      LookupBindAllLast(Bind(acc, ps[0], vs[0]), ps[1..], vs[1..], j - 1);
    }
  }

  /** A name that is not a parameter keeps what it had. */
  lemma {:induction false} LookupBindAllAbsent(acc: Env, ps: seq<string>, vs: seq<Value>, p: string)
    requires |ps| == |vs| && p !in ps
    ensures Lookup(BindAll(acc, ps, vs), p) == Lookup(acc, p)
    decreases |ps|
  {
    if ps != [] {
      LookupBind(acc, ps[0], vs[0], p);
      LookupBindAllAbsent(Bind(acc, ps[0], vs[0]), ps[1..], vs[1..], p);
    }
  }

  /** Arguments that evaluate quietly bind their values in order. */
  lemma {:induction false} BindArgsValues(g: Globals, ps: seq<string>, args: seq<Node>, env: Env, fuel: nat, acc: Env, vs: seq<Value>)
    requires |ps| == |args| == |vs|
    requires forall i :: 0 <= i < |args| ==> Visit(g, args[i], env, fuel) == Run(Val(vs[i]), [])
    ensures BindArgs(g, ps, args, env, fuel, acc) == Bound(BindAll(acc, ps, vs), [])
    decreases |args|
  {
    if args != [] {
      assert Visit(g, args[0], env, fuel) == Run(Val(vs[0]), []);
      BindArgsValues(g, ps[1..], args[1..], env, fuel, Bind(acc, ps[0], vs[0]), vs[1..]);
    }
  }

  /** The first argument that raises stops the binding with its exception. */
  lemma {:induction false} BindArgsRaises(g: Globals, ps: seq<string>, args: seq<Node>, env: Env, fuel: nat, acc: Env, vs: seq<Value>, x: Exception)
    requires |ps| == |args| && |vs| < |args|
    requires forall i :: 0 <= i < |vs| ==> Visit(g, args[i], env, fuel) == Run(Val(vs[i]), [])
    requires Visit(g, args[|vs|], env, fuel) == Run(Raise(x), [])
    ensures BindArgs(g, ps, args, env, fuel, acc) == Unbound(x, [])
    decreases |vs|
  {
    if vs != [] {
      assert Visit(g, args[0], env, fuel) == Run(Val(vs[0]), []);
      BindArgsRaises(g, ps[1..], args[1..], env, fuel, Bind(acc, ps[0], vs[0]), vs[1..], x);
    }
  }

  // ---------------------------------------------------------------------
  // Calls

  /** A call of an unknown name is "not defined"; a call with no arguments
      raises `IndexError`; a count that differs from the definition's is an
      arity error unless the first argument is a `FuncOp`. */
  lemma CallErrors(g: Globals, name: string, args: seq<Node>, env: Env, fuel: nat)
    ensures name !in g ==> VisitCall(g, name, args, env, fuel) == Run(Raise(RuntimeErr(Undefined(name))), [])
    ensures name in g && args == [] ==> VisitCall(g, name, args, env, fuel) == Run(Raise(IndexErr), [])
    ensures name in g && args != [] && !args[0].FuncOp? && |args| != |g[name].params| ==>
      VisitCall(g, name, args, env, fuel) ==
        Run(Raise(RuntimeErr(WrongArity(name, |g[name].params|, |args|))), [])
  {
  }

  /** A call whose arguments evaluate quietly runs the body, one level
      deeper, in the environment binding each parameter to its argument. */
  lemma CallBindsArguments(g: Globals, name: string, args: seq<Node>, env: Env, fuel: nat, vs: seq<Value>)
    requires name in g && args != [] && !args[0].FuncOp?
    requires |args| == |g[name].params| == |vs|
    requires forall i :: 0 <= i < |args| ==> Visit(g, args[i], env, fuel) == Run(Val(vs[i]), [])
    ensures fuel == 0 ==> VisitCall(g, name, args, env, fuel) == Run(Raise(RuntimeErr(RecursionLimit)), [])
    ensures fuel > 0 ==>
      VisitCall(g, name, args, env, fuel) == Evaluate(g, g[name].body, BindAll([], g[name].params, vs), fuel - 1)
  {
    BindArgsValues(g, g[name].params, args, env, fuel, [], vs);
    if fuel > 0 {
      var r := Evaluate(g, g[name].body, BindAll([], g[name].params, vs), fuel - 1);
      assert [] + r.log == r.log;
    }
  }

  /** A first argument `a , b` binds `a` and `b` to the first two
      parameters, whatever the number of arguments and parameters; with
      fewer than two parameters the call raises `IndexError`. */
  lemma CallWithPair(g: Globals, name: string, args: seq<Node>, env: Env, fuel: nat, v0: Value, v1: Value)
    requires name in g && args != [] && args[0].FuncOp?
    requires Visit(g, args[0].left, env, fuel) == Run(Val(v0), [])
    requires Visit(g, args[0].right, env, fuel) == Run(Val(v1), [])
    ensures var ps := g[name].params;
      && (|ps| < 2 ==> VisitCall(g, name, args, env, fuel) == Run(Raise(IndexErr), []))
      && (|ps| >= 2 && fuel > 0 ==>
            VisitCall(g, name, args, env, fuel) ==
              Evaluate(g, g[name].body, Bind(Bind([], ps[0], v0), ps[1], v1), fuel - 1))
  {
    var ps := g[name].params;
    if |ps| >= 2 && fuel > 0 {
      var r := Evaluate(g, g[name].body, Bind(Bind([], ps[0], v0), ps[1], v1), fuel - 1);
      assert [] + [] + r.log == r.log;
    }
  }

  /** `_evaluate` and `visit` differ: a bare name is None for the former and
      looked up by the latter; a `FuncOp` is None for the former and a
      `TypeError` for the latter; an or-node has no `visit` method. */
  lemma EvaluateVersusVisit(g: Globals, x: string, l: Node, r: Node, env: Env, fuel: nat)
    ensures Evaluate(g, Var(x), env, fuel) == Run(Val(NoneV), [])
    ensures Visit(g, Var(x), env, fuel) == Run(Val(Lookup(env, x)), [])
    ensures Evaluate(g, FuncOp(l, r), env, fuel) == Run(Val(NoneV), [])
    ensures Visit(g, FuncOp(l, r), env, fuel) == Run(Raise(TypeErr(MissingArgument)), [])
    ensures Visit(g, OrSeq(l, r), env, fuel) == Run(Raise(RuntimeErr(NoVisitor)), [])
  {
  }

  /** `!` visits its operand with an empty environment, so `!x` never sees
      a parameter: it is always a "Type error". */
  lemma NegationSeesNoLocals(g: Globals, x: string, env: Env, fuel: nat)
    ensures Visit(g, UnaryOp(Var(x)), env, fuel) == Run(Raise(TypeErr(TypeMismatch)), [])
    ensures Evaluate(g, UnaryOp(Var(x)), env, fuel) == Run(Val(NoneV), [Logged(TypeMismatch)])
  {
    assert Visit(g, Var(x), [], fuel) == Run(Val(NoneV), []);
    assert Visit(g, UnaryOp(Var(x)), env, fuel) == VisitUnary(g, UnaryOp(Var(x)), fuel);
  }

  /** The parameters of a `lambd` are not bound: its body is visited in the
      enclosing environment. */
  lemma LambdaIsItsBody(g: Globals, ps: seq<string>, body: Node, env: Env, fuel: nat)
    ensures Visit(g, Lambda(ps, body), env, fuel) == Visit(g, body, env, fuel)
  {
  }

  /** Operands that evaluate quietly give the operator's outcome. */
  lemma BinOpQuiet(g: Globals, l: Node, op: BinOperator, r: Node, env: Env, fuel: nat, a: Value, b: Value)
    requires Visit(g, l, env, fuel) == Run(Val(a), []) && Visit(g, r, env, fuel) == Run(Val(b), [])
    ensures Visit(g, BinOp(l, op, r), env, fuel) == Run(Binary(op, a, b), [])
    ensures Evaluate(g, BinOp(l, op, r), env, fuel) == Catch(Run(Binary(op, a, b), []))
  {
    var none: seq<Line> := [];
    assert none + none == none;
  }

  /** A right operand that raises, after a quiet left one, raises. */
  lemma BinOpRightRaises(g: Globals, l: Node, op: BinOperator, r: Node, env: Env, fuel: nat, a: Value, x: Exception)
    requires Visit(g, l, env, fuel) == Run(Val(a), []) && Visit(g, r, env, fuel) == Run(Raise(x), [])
    ensures Visit(g, BinOp(l, op, r), env, fuel) == Run(Raise(x), [])
    ensures Evaluate(g, BinOp(l, op, r), env, fuel) == Catch(Run(Raise(x), []))
  {
    var none: seq<Line> := [];
    assert none + none == none;
  }

  // ---------------------------------------------------------------------
  // The `cond or rest` form

  /** The condition is never evaluated: a condition `_ op k` with `k` equal
      to the first local value gives that value, whatever `op` and its left
      operand are. */
  lemma OrSeqMatchesFirstValue(g: Globals, c: Node, op: BinOperator, k: int, rest: Node, env: Env, fuel: nat)
    requires env != [] && PyEq(IntV(k), env[0].1)
    ensures Evaluate(g, OrSeq(BinOp(c, op, Num(k)), rest), env, fuel) == Run(Val(env[0].1), [])
  {
  }

  /** Otherwise the form is `rest`, with `rest` evaluated; a condition that
      tests the first value needs one. */
  lemma OrSeqFallsThrough(g: Globals, cond: Node, rest: Node, env: Env, fuel: nat)
    requires !rest.FuncOp?
    requires !(cond.BinOp? && cond.right.Num? && env != [] && PyEq(IntV(cond.right.value), env[0].1))
    ensures cond.BinOp? && (cond.right.Var? || cond.right.Num?) && env == [] ==>
      Evaluate(g, OrSeq(cond, rest), env, fuel) == Run(Raise(IndexErr), [])
    ensures !(cond.BinOp? && (cond.right.Var? || cond.right.Num?) && env == []) ==>
      Evaluate(g, OrSeq(cond, rest), env, fuel) == Evaluate(g, rest, env, fuel)
  {
  }

  /** A `rest` of the form `a , b`, for any `a` and `b`: the value of `b` is
      printed after `b`'s own output, then `a` runs, and the result is None. */
  lemma OrSeqPair(g: Globals, cond: Node, a: Node, b: Node, env: Env, fuel: nat,
                  v: Value, w: Value, la: seq<Line>, lb: seq<Line>)
    requires !(cond.BinOp? && (cond.right.Var? || cond.right.Num?) && env == [])
    requires !(cond.BinOp? && cond.right.Num? && env != [] && PyEq(IntV(cond.right.value), env[0].1))
    requires Evaluate(g, b, env, fuel) == Run(Val(v), lb)
    requires Evaluate(g, a, env, fuel) == Run(Val(w), la)
    ensures Evaluate(g, OrSeq(cond, FuncOp(a, b)), env, fuel) == Run(Val(NoneV), lb + [Shown(v)] + la)
  {
  }

  /** When `b` raises, nothing is printed for it and `a` is not run. */
  lemma OrSeqPairShownRaises(g: Globals, cond: Node, a: Node, b: Node, env: Env, fuel: nat,
                             x: Exception, lb: seq<Line>)
    requires !(cond.BinOp? && (cond.right.Var? || cond.right.Num?) && env == [])
    requires !(cond.BinOp? && cond.right.Num? && env != [] && PyEq(IntV(cond.right.value), env[0].1))
    requires Evaluate(g, b, env, fuel) == Run(Raise(x), lb)
    ensures Evaluate(g, OrSeq(cond, FuncOp(a, b)), env, fuel) == Run(Raise(x), lb)
  {
  }

  /** When `a` raises, the value of `b` has already been printed. */
  lemma OrSeqPairSideRaises(g: Globals, cond: Node, a: Node, b: Node, env: Env, fuel: nat,
                            v: Value, x: Exception, la: seq<Line>, lb: seq<Line>)
    requires !(cond.BinOp? && (cond.right.Var? || cond.right.Num?) && env == [])
    requires !(cond.BinOp? && cond.right.Num? && env != [] && PyEq(IntV(cond.right.value), env[0].1))
    requires Evaluate(g, b, env, fuel) == Run(Val(v), lb)
    requires Evaluate(g, a, env, fuel) == Run(Raise(x), la)
    ensures Evaluate(g, OrSeq(cond, FuncOp(a, b)), env, fuel) == Run(Raise(x), lb + [Shown(v)] + la)
  {
  }

  // ---------------------------------------------------------------------
  // Programs of the test suite

  function Fact(n: nat): nat {
    if n == 0 then 1 else n * Fact(n - 1)
  }

  /** `Defun (Factorial, n)(n == 1) or (n * Factorial(n - 1))`, as parsed. */
  const FactorialBody: Node :=
    OrSeq(BinOp(Var("n"), Eq, Num(1)),
          BinOp(Var("n"), Mul, FuncCall("Factorial", [BinOp(Var("n"), Sub, Num(1))])))

  /** The argument `n - 1` in an environment holding `n`. */
  lemma Decrement(g: Globals, n: int, fuel: nat)
    ensures Visit(g, BinOp(Var("n"), Sub, Num(1)), [("n", IntV(n))], fuel) == Run(Val(IntV(n - 1)), [])
  {
    var env := [("n", IntV(n))];
    assert Visit(g, Var("n"), env, fuel) == Run(Val(IntV(n)), []);
    assert Visit(g, Num(1), env, fuel) == Run(Val(IntV(1)), []);
    BinOpQuiet(g, Var("n"), Sub, Num(1), env, fuel, IntV(n), IntV(1));
  }

  const FactorialCallNode: Node := FuncCall("Factorial", [BinOp(Var("n"), Sub, Num(1))])

  /** The recursive call inside the body, in an environment holding `n`. */
  lemma FactorialRecursiveCall(g: Globals, n: int, fuel: nat)
    requires "Factorial" in g && g["Factorial"] == FunDef(["n"], FactorialBody)
    ensures var call := Visit(g, FactorialCallNode, [("n", IntV(n))], fuel);
      && (fuel == 0 ==> call == Run(Raise(RuntimeErr(RecursionLimit)), []))
      && (fuel > 0 ==> call == Evaluate(g, FactorialBody, [("n", IntV(n - 1))], fuel - 1))
  {
    var arg := BinOp(Var("n"), Sub, Num(1));
    Decrement(g, n, fuel);
    CallBindsArguments(g, "Factorial", [arg], [("n", IntV(n))], fuel, [IntV(n - 1)]);
    assert BindAll([], ["n"], [IntV(n - 1)]) == [("n", IntV(n - 1))];
  }

  /** Unless `n` is 1, the body is the product `n * Factorial(n - 1)`. */
  lemma FactorialUnfolds(g: Globals, n: int, fuel: nat)
    ensures n == 1 ==> Evaluate(g, FactorialBody, [("n", IntV(n))], fuel) == Run(Val(IntV(1)), [])
    ensures n != 1 ==>
      Evaluate(g, FactorialBody, [("n", IntV(n))], fuel) ==
      Catch(Evaluate(g, BinOp(Var("n"), Mul, FactorialCallNode), [("n", IntV(n))], fuel))
  {
  }

  /** For n >= 1 the body computes n!, printing nothing, once calls may nest
      n - 1 deep. */
  lemma {:induction false} FactorialComputes(g: Globals, n: nat, fuel: nat)
    requires "Factorial" in g && g["Factorial"] == FunDef(["n"], FactorialBody)
    requires n >= 1 && fuel >= n - 1
    ensures Evaluate(g, FactorialBody, [("n", IntV(n))], fuel) == Run(Val(IntV(Fact(n))), [])
    decreases n
  {
    FactorialUnfolds(g, n, fuel);
    if n > 1 {
      var env := [("n", IntV(n))];
      FactorialRecursiveCall(g, n, fuel);
      FactorialComputes(g, n - 1, fuel - 1);
      assert Visit(g, Var("n"), env, fuel) == Run(Val(IntV(n)), []);
      BinOpQuiet(g, Var("n"), Mul, FactorialCallNode, env, fuel, IntV(n), IntV(Fact(n - 1)));
      assert n * Fact(n - 1) == Fact(n);
    } else {
      assert Fact(1) == 1;
    }
  }

  /** `Factorial(n)` for a literal n >= 1 is n!. */
  lemma FactorialCall(g: Globals, n: nat, env: Env, fuel: nat)
    requires "Factorial" in g && g["Factorial"] == FunDef(["n"], FactorialBody)
    requires n >= 1 && fuel >= n
    ensures VisitCall(g, "Factorial", [Num(n)], env, fuel) == Run(Val(IntV(Fact(n))), [])
  {
    CallBindsArguments(g, "Factorial", [Num(n)], env, fuel, [IntV(n)]);
    assert BindAll([], ["n"], [IntV(n)]) == [("n", IntV(n))];
    FactorialComputes(g, n, fuel - 1);
  }

  /** For n <= 0 the condition never matches: the recursion only ends at the
      depth limit, with `RecursionError`. */
  lemma {:induction false} FactorialDiverges(g: Globals, n: int, fuel: nat)
    requires "Factorial" in g && g["Factorial"] == FunDef(["n"], FactorialBody)
    requires n <= 0
    ensures Evaluate(g, FactorialBody, [("n", IntV(n))], fuel) == Run(Raise(RuntimeErr(RecursionLimit)), [])
    decreases fuel
  {
    var env := [("n", IntV(n))];
    FactorialUnfolds(g, n, fuel);
    FactorialRecursiveCall(g, n, fuel);
    if fuel > 0 {
      FactorialDiverges(g, n - 1, fuel - 1);
    }
    assert Visit(g, Var("n"), env, fuel) == Run(Val(IntV(n)), []);
    BinOpRightRaises(g, Var("n"), Mul, FactorialCallNode, env, fuel, IntV(n), RuntimeErr(RecursionLimit));
  }

  /** `Defun (Add,a,b)a+b`. */
  const AddBody: Node := BinOp(Var("a"), Add, Var("b"))

  /** `Defun (repeat,n)(n==0) or (repeat(n-1) , Add(1,1))`, as parsed. */
  const RepeatBody: Node :=
    OrSeq(BinOp(Var("n"), Eq, Num(0)),
          FuncOp(FuncCall("repeat", [BinOp(Var("n"), Sub, Num(1))]), FuncCall("Add", [Num(1), Num(1)])))

  predicate RepeatDefined(g: Globals) {
    && "Add" in g && g["Add"] == FunDef(["a", "b"], AddBody)
    && "repeat" in g && g["repeat"] == FunDef(["n"], RepeatBody)
  }

  function Copies(l: Line, n: nat): seq<Line> {
    if n == 0 then [] else [l] + Copies(l, n - 1)
  }

  /** Two distinct parameters bound in order. */
  lemma BindTwo(p0: string, p1: string, v0: Value, v1: Value)
    requires p0 != p1
    ensures Bind(Bind([], p0, v0), p1, v1) == [(p0, v0), (p1, v1)]
    ensures BindAll([], [p0, p1], [v0, v1]) == [(p0, v0), (p1, v1)]
  {
    assert Bind([], p0, v0) == [(p0, v0)];
    assert Bind([(p0, v0)], p1, v1) == [(p0, v0)] + Bind([], p1, v1);
    assert [p0, p1][1..] == [p1] && [v0, v1][1..] == [v1];
    assert BindAll([(p0, v0), (p1, v1)], [p1][1..], [v1][1..]) == [(p0, v0), (p1, v1)];
  }

  lemma LookupSecond(p0: string, p1: string, v0: Value, v1: Value)
    requires p0 != p1
    ensures Lookup([(p0, v0), (p1, v1)], p0) == v0 && Lookup([(p0, v0), (p1, v1)], p1) == v1
  {
    assert [(p0, v0), (p1, v1)][1..] == [(p1, v1)];
  }

  /** `Add` adds its two arguments. */
  lemma AddComputes(g: Globals, x: int, y: int, fuel: nat)
    ensures Evaluate(g, AddBody, [("a", IntV(x)), ("b", IntV(y))], fuel) == Run(Val(IntV(x + y)), [])
  {
    var env := [("a", IntV(x)), ("b", IntV(y))];
    LookupSecond("a", "b", IntV(x), IntV(y));
    assert Visit(g, Var("a"), env, fuel) == Run(Val(IntV(x)), []);
    assert Visit(g, Var("b"), env, fuel) == Run(Val(IntV(y)), []);
    BinOpQuiet(g, Var("a"), Add, Var("b"), env, fuel, IntV(x), IntV(y));
  }

  /** `Add(x, y)` on two literals. */
  lemma AddCall(g: Globals, x: int, y: int, env: Env, fuel: nat)
    requires "Add" in g && g["Add"] == FunDef(["a", "b"], AddBody) && fuel > 0
    ensures VisitCall(g, "Add", [Num(x), Num(y)], env, fuel) == Run(Val(IntV(x + y)), [])
  {
    CallBindsArguments(g, "Add", [Num(x), Num(y)], env, fuel, [IntV(x), IntV(y)]);
    BindTwo("a", "b", IntV(x), IntV(y));
    AddComputes(g, x, y, fuel - 1);
  }

  const RepeatCallNode: Node := FuncCall("repeat", [BinOp(Var("n"), Sub, Num(1))])

  lemma RepeatRecursiveCall(g: Globals, n: int, fuel: nat)
    requires RepeatDefined(g) && fuel > 0
    ensures Evaluate(g, RepeatCallNode, [("n", IntV(n))], fuel) ==
      Catch(Evaluate(g, RepeatBody, [("n", IntV(n - 1))], fuel - 1))
  {
    var arg := BinOp(Var("n"), Sub, Num(1));
    Decrement(g, n, fuel);
    CallBindsArguments(g, "repeat", [arg], [("n", IntV(n))], fuel, [IntV(n - 1)]);
    assert BindAll([], ["n"], [IntV(n - 1)]) == [("n", IntV(n - 1))];
  }

  /** Unless `n` is 0, the body prints `Add(1,1)` and then runs `repeat(n-1)`. */
  lemma RepeatUnfolds(g: Globals, n: int, fuel: nat)
    ensures n == 0 ==> Evaluate(g, RepeatBody, [("n", IntV(n))], fuel) == Run(Val(IntV(0)), [])
    ensures n != 0 ==>
      Evaluate(g, RepeatBody, [("n", IntV(n))], fuel) ==
      Catch(
        var env := [("n", IntV(n))];
        var shown := Evaluate(g, FuncCall("Add", [Num(1), Num(1)]), env, fuel);
        if shown.out.Raise? then shown
        else
          var side := Evaluate(g, RepeatCallNode, env, fuel);
          if side.out.Raise? then Run(side.out, shown.log + [Shown(shown.out.v)] + side.log)
          else Run(Val(NoneV), shown.log + [Shown(shown.out.v)] + side.log))
  {
  }

  /** `repeat(n)` prints 2 exactly n times; it gives 0 for n = 0 and None
      otherwise (the `a , b` form gives None). */
  lemma {:induction false} RepeatPrints(g: Globals, n: nat, fuel: nat)
    requires RepeatDefined(g) && fuel >= n
    ensures Evaluate(g, RepeatBody, [("n", IntV(n))], fuel) ==
      Run(Val(if n == 0 then IntV(0) else NoneV), Copies(Shown(IntV(2)), n))
    decreases n
  {
    RepeatUnfolds(g, n, fuel);
    if n > 0 {
      AddCall(g, 1, 1, [("n", IntV(n))], fuel);
      RepeatRecursiveCall(g, n, fuel);
      RepeatPrints(g, n - 1, fuel - 1);
      AppendEmpty([Shown(IntV(2))]);
    }
  }

  /** `AddAplusAMulB(4, 2)` is 12: `a + lambd (b,a) (b*a)`, the lambda's body
      read in the call's environment. */
  lemma AddAplusAMulBExample(g: Globals, env: Env, fuel: nat)
    requires "AddAplusAMulB" in g && fuel > 0
    requires g["AddAplusAMulB"] ==
      FunDef(["a", "b"], BinOp(Var("a"), Add, Lambda(["b", "a"], BinOp(Var("b"), Mul, Var("a")))))
    ensures VisitCall(g, "AddAplusAMulB", [Num(4), Num(2)], env, fuel) == Run(Val(IntV(12)), [])
  {
    CallBindsArguments(g, "AddAplusAMulB", [Num(4), Num(2)], env, fuel, [IntV(4), IntV(2)]);
    var local := [("a", IntV(4)), ("b", IntV(2))];
    BindTwo("a", "b", IntV(4), IntV(2));
    LookupSecond("a", "b", IntV(4), IntV(2));
    assert Visit(g, Var("a"), local, fuel - 1) == Run(Val(IntV(4)), []);
    assert Visit(g, Var("b"), local, fuel - 1) == Run(Val(IntV(2)), []);
    BinOpQuiet(g, Var("b"), Mul, Var("a"), local, fuel - 1, IntV(2), IntV(4));
    var lam := Lambda(["b", "a"], BinOp(Var("b"), Mul, Var("a")));
    assert Visit(g, lam, local, fuel - 1) == Run(Val(IntV(8)), []);
    BinOpQuiet(g, Var("a"), Add, lam, local, fuel - 1, IntV(4), IntV(8));
  }

  /** `Add(Add(2,2),2)` is parsed with one argument `Add(2,2) , 2`; the pair
      binds `a` and `b` and the call gives 6. */
  lemma NestedAddExample(g: Globals, env: Env, fuel: nat)
    requires "Add" in g && g["Add"] == FunDef(["a", "b"], AddBody) && fuel > 0
    ensures VisitCall(g, "Add", [FuncOp(FuncCall("Add", [Num(2), Num(2)]), Num(2))], env, fuel) ==
      Run(Val(IntV(6)), [])
  {
    AddCall(g, 2, 2, env, fuel);
    assert Visit(g, FuncCall("Add", [Num(2), Num(2)]), env, fuel) == Run(Val(IntV(4)), []);
    CallWithPair(g, "Add", [FuncOp(FuncCall("Add", [Num(2), Num(2)]), Num(2))], env, fuel, IntV(4), IntV(2));
    BindTwo("a", "b", IntV(4), IntV(2));
    AddComputes(g, 4, 2, fuel - 1);
  }

  /** `!` negates a bool and is a "Type error" on anything else. */
  lemma Negation(g: Globals, operand: Node, env: Env, fuel: nat)
    requires operand.Num? || operand.Bool?
    ensures operand.Bool? ==> Visit(g, UnaryOp(operand), env, fuel) == Run(Val(BoolV(!operand.b)), [])
    ensures operand.Num? ==> Visit(g, UnaryOp(operand), env, fuel) == Run(Raise(TypeErr(TypeMismatch)), [])
    ensures operand.Num? ==> Evaluate(g, UnaryOp(operand), env, fuel) == Run(Val(NoneV), [Logged(TypeMismatch)])
  {
    assert Visit(g, operand, [], fuel).log == [];
    assert Visit(g, UnaryOp(operand), env, fuel) == VisitUnary(g, UnaryOp(operand), fuel);
  }

  /** `-30/6*5-2` reaches the lexer as `((((0 - 30)/6)*5)-2)`: the rewrite
      of the line by Python's own parser spells the unary minus as
      `(0 - 30)` and brackets every operation; the value is -27. */
  lemma ArithmeticExample(g: Globals, env: Env, fuel: nat)
    ensures Evaluate(g, BinOp(BinOp(BinOp(BinOp(Num(0), Sub, Num(30)), Div, Num(6)), Mul, Num(5)), Sub, Num(2)), env, fuel) ==
      Run(Val(IntV(-27)), [])
  {
    var m := BinOp(Num(0), Sub, Num(30));
    BinOpQuiet(g, Num(0), Sub, Num(30), env, fuel, IntV(0), IntV(30));
    var q := BinOp(m, Div, Num(6));
    BinOpQuiet(g, m, Div, Num(6), env, fuel, IntV(-30), IntV(6));
    assert Binary(Div, IntV(-30), IntV(6)) == Val(IntV(-5));
    var p := BinOp(q, Mul, Num(5));
    BinOpQuiet(g, q, Mul, Num(5), env, fuel, IntV(-5), IntV(5));
    BinOpQuiet(g, p, Sub, Num(2), env, fuel, IntV(-25), IntV(2));
  }
}
