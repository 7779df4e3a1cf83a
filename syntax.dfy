/** The abstract syntax the parser builds (src/interpreterProj.py:408-500). */
module Syntax {
  import opened Util

  /** The operator texts a `BinOp` node can carry. */
  datatype BinOperator = Add | Sub | Mul | Div | Mod | Eq | Ne | Gt | Lt | Ge | Le | And | Or

  const OperatorTexts: set<string> :=
    {"+", "-", "*", "/", "%", "==", "!=", ">", "<", ">=", "<=", "&&", "||"}

  /** The text of an operator as it appears in the source program. */
  function OpText(op: BinOperator): (s: string)
    ensures s in OperatorTexts && OpFromText(s) == Some(op)
  {
    match op
    case Add => "+" case Sub => "-" case Mul => "*" case Div => "/" case Mod => "%"
    case Eq => "==" case Ne => "!=" case Gt => ">" case Lt => "<" case Ge => ">=" case Le => "<="
    case And => "&&" case Or => "||"
  }

  /** The operator a piece of text names, if any. */
  function OpFromText(s: string): (r: Option<BinOperator>)
    ensures r.Some? <==> s in OperatorTexts
  {
    if s == "+" then Some(Add) else if s == "-" then Some(Sub)
    else if s == "*" then Some(Mul) else if s == "/" then Some(Div)
    else if s == "%" then Some(Mod) else if s == "==" then Some(Eq)
    else if s == "!=" then Some(Ne) else if s == ">" then Some(Gt)
    else if s == "<" then Some(Lt) else if s == ">=" then Some(Ge)
    else if s == "<=" then Some(Le) else if s == "&&" then Some(And)
    else if s == "||" then Some(Or) else None
  }

  /** An expression node. A variable is a bare name (the source uses a plain
      `str`); `UnaryOp` always carries `!`; `FuncOp` is the `call , factor`
      pair the parser builds after a call; `OrSeq` is `advancedFuncOp`,
      the `left or right` form. */
  datatype Node =
    | Num(value: int)
    | Bool(b: bool)
    | Var(name: string)
    | BinOp(left: Node, op: BinOperator, right: Node)
    | UnaryOp(operand: Node)
    | Lambda(params: seq<string>, body: Node)
    | FuncCall(name: string, args: seq<Node>)
    | FuncOp(left: Node, right: Node)
    | OrSeq(left: Node, right: Node)

  /** A top-level statement: a `Defun` definition or an expression. The
      parser only builds `FuncDef` at the top level. */
  datatype Stmt =
    | FuncDef(name: string, params: seq<string>, body: Node)
    | ExprStmt(expr: Node)

  /** The number of nodes of an expression; a measure for recursion over
      an expression and a call's argument list. */
  function Size(e: Node): (n: nat)
    ensures n >= 1
    decreases e
  {
    match e
    case BinOp(l, _, r) => 1 + Size(l) + Size(r)
    case UnaryOp(x) => 1 + Size(x)
    case Lambda(_, body) => 1 + Size(body)
    case FuncCall(_, args) => 1 + SizeAll(args)
    case FuncOp(l, r) => 1 + Size(l) + Size(r)
    case OrSeq(l, r) => 1 + Size(l) + Size(r)
    case _ => 1
  }

  function SizeAll(args: seq<Node>): nat
    decreases args
  {
    if args == [] then 0 else Size(args[0]) + SizeAll(args[1..])
  }
}
