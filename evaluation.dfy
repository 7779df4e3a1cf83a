/** The tree-walking evaluator of `Interpreter` (src/interpreterProj.py:840-1041).

    Evaluating an expression only reads the global function table (the
    parser builds `FuncDef` at the top level only), so expression
    evaluation is a family of functions; the class `Interpreter` at the end
    holds the state the source updates in place: the function table and
    what has been printed. Every Python exception the evaluator can raise
    is a value of `Exception`; a run carries the lines printed on the way. */
module Evaluation {
  import opened Util
  import opened Syntax

  /** A run-time value: Python `int`, `bool` or `None`. */
  datatype Value = IntV(i: int) | BoolV(b: bool) | NoneV

  /** The `TypeError`s the evaluator raises. */
  datatype TypeFault =
    | NotBoolOperands            // "one of the Operands is not bool"
    | TypeMismatch               // "Type error"
    | UnsupportedOperands(op: BinOperator)  // Python's own error for `None` in arithmetic
    | Unorderable(op: BinOperator)          // Python's own error for `None` in `<`, `>`, ...
    | MissingArgument            // `visit_FuncOp` called through `visit` with one argument too few

  /** The `RuntimeError`s, `RecursionError` among them. */
  datatype RuntimeFault =
    | DivisionByZero
    | ModuloByZero
    | Undefined(name: string)
    | WrongArity(name: string, expected: nat, got: nat)
    | NoVisitor                  // `visit` of an or-node: "No visit_advancedFuncOp method defined"
    | RecursionLimit

  datatype Exception = TypeErr(t: TypeFault) | RuntimeErr(r: RuntimeFault) | IndexErr

  datatype Outcome = Val(v: Value) | Raise(exc: Exception)

  /** A printed line: a value printed by an or-node, a `TypeError` caught by
      `_evaluate`, or a `RuntimeError` caught by `interpret`. */
  datatype Line = Shown(v: Value) | Logged(t: TypeFault) | Reported(r: RuntimeFault)

  datatype Run = Run(out: Outcome, log: seq<Line>)

  datatype FunDef = FunDef(params: seq<string>, body: Node)

  type Globals = map<string, FunDef>

  /** A local environment: a Python dict, whose insertion order matters
      (an or-node compares against its first value). */
  type Env = seq<(string, Value)>

  /** `env[k] = v`: an existing key keeps its place. */
  function Bind(env: Env, k: string, v: Value): (r: Env)
    ensures |r| == |env| || |r| == |env| + 1
    decreases |env|
  {
    if env == [] then [(k, v)]
    else if env[0].0 == k then [(k, v)] + env[1..]
    else [env[0]] + Bind(env[1..], k, v)
  }

  /** Keys keep their places; a new key goes at the end, and the dict
      grows exactly when the key is new. */
  lemma {:induction false} BindOrder(env: Env, k: string, v: Value)
    ensures forall i :: 0 <= i < |env| ==> Bind(env, k, v)[i].0 == env[i].0
    ensures |Bind(env, k, v)| == |env| + 1 <==> forall i :: 0 <= i < |env| ==> env[i].0 != k
    ensures |Bind(env, k, v)| == |env| + 1 ==> Bind(env, k, v)[|env|] == (k, v)
    decreases |env|
  {
    if env != [] && env[0].0 != k {
      BindOrder(env[1..], k, v);
    }
  }

  /** `dict(env).get(k)`: a value other than None is one stored under `k`. */
  function Lookup(env: Env, k: string): (r: Value)
    ensures r != NoneV ==> exists i :: 0 <= i < |env| && env[i] == (k, r)
    decreases |env|
  {
    if env == [] then NoneV
    else if env[0].0 == k then env[0].1
    else Lookup(env[1..], k)
  }

  lemma {:induction false} LookupBind(env: Env, k: string, v: Value, k': string)
    ensures Lookup(Bind(env, k, v), k') == if k' == k then v else Lookup(env, k')
    decreases |env|
  {
    if env != [] && env[0].0 != k {
      LookupBind(env[1..], k, v, k');
      assert Bind(env, k, v)[1..] == Bind(env[1..], k, v);
    }
  }

  /** Binding `k` leaves every other key as it was. */
  lemma LookupBindOthers(env: Env, k: string, v: Value)
    ensures forall k' :: k' != k ==> Lookup(Bind(env, k, v), k') == Lookup(env, k')
  {
    forall k' | k' != k
      ensures Lookup(Bind(env, k, v), k') == Lookup(env, k')
    {
      LookupBind(env, k, v, k');
    }
  }

  /** Binding keeps the first entry unless the dict was empty or its first
      key is the one bound. */
  lemma FirstAfterBind(env: Env, k: string, v: Value)
    ensures Bind(env, k, v)[0] == if env == [] || env[0].0 == k then (k, v) else env[0]
  {
  }

  // ---------------------------------------------------------------------
  // Python integer arithmetic

  /** Python's `//`: the quotient rounded toward minus infinity. */
  function FloorDiv(a: int, b: int): (q: int)
    requires b != 0
    ensures b > 0 ==> b * q <= a < b * q + b
    ensures b < 0 ==> b * q + b < a <= b * q
  {
    if b > 0 then a / b else (-a) / (-b)
  }

  /** Python's `%`: the remainder has the sign of the divisor. */
  function PyMod(a: int, b: int): (m: int)
    requires b != 0
    ensures b > 0 ==> 0 <= m < b
    ensures b < 0 ==> b < m <= 0
  {
    a - b * FloorDiv(a, b)
  }

  /** `//` and `%` are Python's floor division: `a == b * q + m` with the
      remainder strictly between zero and the divisor, on the divisor's side. */
  lemma FloorDivision(a: int, b: int)
    requires b != 0
    ensures a == b * FloorDiv(a, b) + PyMod(a, b)
    ensures b > 0 ==> 0 <= PyMod(a, b) < b
    ensures b < 0 ==> b < PyMod(a, b) <= 0
  {
    if b < 0 {
      var q := (-a) / (-b);
      assert (-a) == (-b) * q + (-a) % (-b);
      assert a == b * q - (-a) % (-b);
    }
  }

  lemma {:induction false} MulAtLeast(b: int, d: int)
    requires b > 0 && d >= 1
    ensures b * d >= b
    decreases d
  {
    if d > 1 {
      MulAtLeast(b, d - 1);
      assert b * d == b * (d - 1) + b;
    }
  }

  /** Quotient and remainder are determined by the equation and the range. */
  lemma FloorDivisionUnique(a: int, b: int, q: int, m: int)
    requires b != 0 && a == b * q + m
    requires b > 0 ==> 0 <= m < b
    requires b < 0 ==> b < m <= 0
    ensures q == FloorDiv(a, b) && m == PyMod(a, b)
  {
    FloorDivision(a, b);
    var q' := FloorDiv(a, b);
    var m' := PyMod(a, b);
    var d := q - q';
    assert b * d == m' - m by {
      assert b * d == b * q - b * q';
    }
    var c := if b > 0 then b else -b;
    assert -c < m' - m < c;
    if d >= 1 {
      MulAtLeast(c, d);
    } else if d <= -1 {
      assert c * (-d) == if b > 0 then -(b * d) else b * d;
      MulAtLeast(c, -d);
    }
  }

  predicate IsArithmetic(op: BinOperator) {
    op in {Add, Sub, Mul, Div, Mod}
  }

  predicate IsOrdering(op: BinOperator) {
    op in {Gt, Lt, Ge, Le}
  }

  /** `+`, `-`, `*`, `//` and `%` on Python integers: the quotient is
      rounded down and the remainder lies on the divisor's side of zero. */
  function Arith(op: BinOperator, a: int, b: int): (r: int)
    requires IsArithmetic(op) && (op in {Div, Mod} ==> b != 0)
    ensures op == Div && b > 0 ==> b * r <= a < b * r + b
    ensures op == Div && b < 0 ==> b * r + b < a <= b * r
    ensures op == Mod ==> (b > 0 ==> 0 <= r < b) && (b < 0 ==> b < r <= 0)
  {
    match op
    case Add => a + b
    case Sub => a - b
    case Mul => a * b
    case Div => FloorDiv(a, b)
    case Mod => PyMod(a, b)
  }

  /** A number or a boolean as Python compares it (`True` is 1). */
  function Numeric(v: Value): int
    requires !v.NoneV?
  {
    if v.IntV? then v.i else if v.b then 1 else 0
  }

  /** Python `==` on the values: `True == 1`, `None == None`. */
  predicate PyEq(a: Value, b: Value): (r: bool)
    ensures r <==> (a == b
      || (a.IntV? && b.BoolV? && a.i == (if b.b then 1 else 0))
      || (a.BoolV? && b.IntV? && b.i == (if a.b then 1 else 0)))
  {
    if a.NoneV? || b.NoneV? then a.NoneV? && b.NoneV? else Numeric(a) == Numeric(b)
  }

  /** `>`, `<`, `>=` and `<=`: the strict form, or equality for the
      non-strict one. */
  function Ordered(op: BinOperator, a: int, b: int): (r: bool)
    requires IsOrdering(op)
    ensures r <==> (op in {Gt, Ge} && a > b) || (op in {Lt, Le} && a < b) || (op in {Ge, Le} && a == b)
  {
    match op
    case Gt => a > b
    case Lt => a < b
    case Ge => a >= b
    case Le => a <= b
  }

  /** The `if`/`elif` chain of `visit_BinOp` on two evaluated operands.
      Arithmetic needs two non-bool operands (a bool falls to the final
      "Type error"); `/` and `%` test the divisor against 0 before computing;
      `&&`/`||` need two bools. */
  function Binary(op: BinOperator, l: Value, r: Value): (o: Outcome)
    ensures o.Val? && IsArithmetic(op) ==> l.IntV? && r.IntV? && o.v.IntV?
    ensures o.Val? && !IsArithmetic(op) ==> o.v.BoolV?
  {
    if IsArithmetic(op) && !l.BoolV? && !r.BoolV? then
      if op in {Div, Mod} && r == IntV(0) then
        Raise(RuntimeErr(if op == Div then DivisionByZero else ModuloByZero))
      else if l.NoneV? || r.NoneV? then Raise(TypeErr(UnsupportedOperands(op)))
      else Val(IntV(Arith(op, l.i, r.i)))
    else if op == And || op == Or then
      if l.BoolV? && r.BoolV? then Val(BoolV(if op == And then l.b && r.b else l.b || r.b))
      else Raise(TypeErr(NotBoolOperands))
    else if op == Eq then Val(BoolV(PyEq(l, r)))
    else if op == Ne then Val(BoolV(!PyEq(l, r)))
    else if IsOrdering(op) then
      if l.NoneV? || r.NoneV? then Raise(TypeErr(Unorderable(op)))
      else Val(BoolV(Ordered(op, Numeric(l), Numeric(r))))
    else Raise(TypeErr(TypeMismatch))
  }

  // ---------------------------------------------------------------------
  // Evaluation. `fuel` is the depth of user-function calls Python's stack
  // allows; when it runs out the call raises `RecursionError`.

  /** What binding a call's arguments to its parameters gives. */
  datatype Binding = Bound(local: Env, log: seq<Line>) | Unbound(exc: Exception, log: seq<Line>)

  /** `_evaluate`'s `except TypeError`: the message is printed, the value is None. */
  function Catch(r: Run): (c: Run)
    ensures !(c.out.Raise? && c.out.exc.TypeErr?)
  {
    if r.out.Raise? && r.out.exc.TypeErr? then Run(Val(NoneV), r.log + [Logged(r.out.exc.t)]) else r
  }

  /** An expression that calls no user function: only a call's body can
      print. */
  predicate CallFree(e: Node)
    decreases e
  {
    match e
    case BinOp(l, _, r) => CallFree(l) && CallFree(r)
    case UnaryOp(x) => CallFree(x)
    case Lambda(_, body) => CallFree(body)
    case FuncCall(_, _) => false
    case _ => true
  }

  /** `visit`: dispatch on the node's class. A variable is looked up; an
      or-node has no visitor; a `FuncOp` reaches `visit_FuncOp` with one
      argument too few. `visit` itself prints nothing: without a call the
      log stays empty. */
  function Visit(g: Globals, e: Node, env: Env, fuel: nat): (r: Run)
    ensures CallFree(e) ==> r.log == []
    decreases fuel, Size(e), 1
  {
    match e
    case Num(n) => Run(Val(IntV(n)), [])
    case Bool(b) => Run(Val(BoolV(b)), [])
    case Var(x) => Run(Val(Lookup(env, x)), [])
    case BinOp(_, _, _) => VisitBinOp(g, e, env, fuel)
    case UnaryOp(_) => VisitUnary(g, e, fuel)
    case Lambda(_, body) => Visit(g, body, env, fuel)
    case FuncCall(name, args) => VisitCall(g, name, args, env, fuel)
    case FuncOp(_, _) => Run(Raise(TypeErr(MissingArgument)), [])
    case OrSeq(_, _) => Run(Raise(RuntimeErr(NoVisitor)), [])
  }

  /** `visit_BinOp`: left operand, right operand, then the operator. A value
      is an integer for an arithmetic operator and a bool for any other. */
  function VisitBinOp(g: Globals, e: Node, env: Env, fuel: nat): (r: Run)
    requires e.BinOp?
    ensures r.out.Val? ==> (r.out.v.IntV? <==> IsArithmetic(e.op)) && !r.out.v.NoneV?
    ensures CallFree(e) ==> r.log == []
    decreases fuel, Size(e), 0
  {
    var rl := Visit(g, e.left, env, fuel);
    if rl.out.Raise? then rl
    else
      var rr := Visit(g, e.right, env, fuel);
      if rr.out.Raise? then Run(rr.out, rl.log + rr.log)
      else Run(Binary(e.op, rl.out.v, rr.out.v), rl.log + rr.log)
  }

  /** `visit_UnaryOp`: the operand is visited with an empty environment; a
      value is the negation of the operand's bool. */
  function VisitUnary(g: Globals, e: Node, fuel: nat): (r: Run)
    requires e.UnaryOp?
    ensures r.out.Val? ==> r.out.v.BoolV? && Visit(g, e.operand, [], fuel).out == Val(BoolV(!r.out.v.b))
    ensures CallFree(e) ==> r.log == []
    decreases fuel, Size(e), 0
  {
    var r := Visit(g, e.operand, [], fuel);
    if r.out.Raise? then r
    else if r.out.v.BoolV? then Run(Val(BoolV(!r.out.v.b)), r.log)
    else Run(Raise(TypeErr(TypeMismatch)), r.log)
  }

  /** `visit_FuncCall`. An empty argument list raises `IndexError` (the
      source reads `args[0]`); a first argument that is a `FuncOp` binds its
      two halves to the first two parameters and ignores the rest; otherwise
      the argument count must match and each parameter is bound in order.
      With no fuel left no call of a defined function gives a value. */
  function VisitCall(g: Globals, name: string, args: seq<Node>, env: Env, fuel: nat): (r: Run)
    ensures fuel == 0 && name in g ==> r.out.Raise?
    decreases fuel, SizeAll(args), 4
  {
    if name !in g then Run(Raise(RuntimeErr(Undefined(name))), [])
    else
      var d := g[name];
      if |args| == 0 then Run(Raise(IndexErr), [])
      else if |args| != |d.params| && !args[0].FuncOp? then
        Run(Raise(RuntimeErr(WrongArity(name, |d.params|, |args|))), [])
      else
        var bound :=
          if args[0].FuncOp? then BindPair(g, d.params, args[0], env, fuel)
          else BindArgs(g, d.params, args, env, fuel, []);
        match bound
        case Unbound(x, log) => Run(Raise(x), log)
        case Bound(local, log) =>
          if fuel == 0 then Run(Raise(RuntimeErr(RecursionLimit)), log)
          else
            var r := Evaluate(g, d.body, local, fuel - 1);
            Run(r.out, log + r.log)
  }

  /** `{params[0]: visit(left), params[1]: visit(right)}`, evaluated key,
      value, key, value. It needs two parameters; the second is bound to the
      right half, and the first to the left half unless both are the same
      name. */
  function BindPair(g: Globals, params: seq<string>, pair: Node, env: Env, fuel: nat): (r: Binding)
    requires pair.FuncOp?
    ensures |params| < 2 ==> r.Unbound?
    ensures r.Bound? ==> |params| >= 2 && Visit(g, pair.right, env, fuel).out == Val(Lookup(r.local, params[1]))
    ensures r.Bound? && params[0] != params[1] ==> Visit(g, pair.left, env, fuel).out == Val(Lookup(r.local, params[0]))
    decreases fuel, Size(pair), 3
  {
    if |params| == 0 then Unbound(IndexErr, [])
    else
      var r0 := Visit(g, pair.left, env, fuel);
      if r0.out.Raise? then Unbound(r0.out.exc, r0.log)
      else if |params| < 2 then Unbound(IndexErr, r0.log)
      else
        var r1 := Visit(g, pair.right, env, fuel);
        if r1.out.Raise? then Unbound(r1.out.exc, r0.log + r1.log)
        else
          var first := Bind([], params[0], r0.out.v);
          LookupBind([], params[0], r0.out.v, params[0]);
          LookupBind(first, params[1], r1.out.v, params[0]);
          LookupBind(first, params[1], r1.out.v, params[1]);
          Bound(Bind(first, params[1], r1.out.v), r0.log + r1.log)
  }

  /** `{params[i]: visit(args[i]) for i in range(len(params))}`, added to
      `acc`: a name that is not a parameter keeps what `acc` gave it. */
  function BindArgs(g: Globals, params: seq<string>, args: seq<Node>, env: Env, fuel: nat, acc: Env): (r: Binding)
    requires |params| == |args|
    ensures r.Bound? ==> forall k :: k !in params ==> Lookup(r.local, k) == Lookup(acc, k)
    decreases fuel, SizeAll(args), 3
  {
    if args == [] then Bound(acc, [])
    else
      var r := Visit(g, args[0], env, fuel);
      if r.out.Raise? then Unbound(r.out.exc, r.log)
      else
        LookupBindOthers(acc, params[0], r.out.v);
        match BindArgs(g, params[1..], args[1..], env, fuel, Bind(acc, params[0], r.out.v))
        case Bound(l, log) => Bound(l, r.log + log)
        case Unbound(x, log) => Unbound(x, r.log + log)
  }

  /** `_evaluate` on one node: like `visit`, except that a variable or a
      `FuncOp` gives None, an or-node goes to `visit_AdvancedFuncOp`, and a
      `TypeError` is printed and gives None. */
  function Evaluate(g: Globals, e: Node, env: Env, fuel: nat): (r: Run)
    ensures !(r.out.Raise? && r.out.exc.TypeErr?)
    decreases fuel, Size(e), 2
  {
    match e
    case Num(n) => Run(Val(IntV(n)), [])
    case Bool(b) => Run(Val(BoolV(b)), [])
    case Var(_) => Run(Val(NoneV), [])
    case BinOp(_, _, _) => Catch(VisitBinOp(g, e, env, fuel))
    case UnaryOp(_) => Catch(VisitUnary(g, e, fuel))
    case Lambda(_, body) => Catch(Visit(g, body, env, fuel))
    case FuncCall(name, args) => Catch(VisitCall(g, name, args, env, fuel))
    case FuncOp(_, _) => Run(Val(NoneV), [])
    case OrSeq(_, _) => Catch(EvaluateOrSeq(g, e, env, fuel))
  }

  /** `visit_AdvancedFuncOp`, the `cond or rest` form. The condition is not
      evaluated: when it is a `BinOp` whose right operand is a number equal
      to the first value of the environment, that value is the result (a
      name there never equals a value; either reads the first value and so
      raises `IndexError` on an empty environment). Otherwise a `rest` of
      the form `a , b` prints the value of `b`, evaluates `a` and gives
      None; any other `rest` is evaluated. */
  function EvaluateOrSeq(g: Globals, e: Node, env: Env, fuel: nat): (r: Run)
    requires e.OrSeq?
    ensures !(r.out.Raise? && r.out.exc.TypeErr?)
    decreases fuel, Size(e), 1
  {
    var testsFirst := e.left.BinOp? && (e.left.right.Var? || e.left.right.Num?);
    if testsFirst && env == [] then Run(Raise(IndexErr), [])
    else if testsFirst && e.left.right.Num? && PyEq(IntV(e.left.right.value), env[0].1) then
      Run(Val(env[0].1), [])
    else if e.right.FuncOp? then
      assert Size(e.right.left) < Size(e) && Size(e.right.right) < Size(e);
      var shown := Evaluate(g, e.right.right, env, fuel);
      if shown.out.Raise? then shown
      else
        var log := shown.log + [Shown(shown.out.v)];
        var side := Evaluate(g, e.right.left, env, fuel);
        if side.out.Raise? then Run(side.out, log + side.log)
        else Run(Val(NoneV), log + side.log)
    else Evaluate(g, e.right, env, fuel)
  }
}
