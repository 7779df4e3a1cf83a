/** The recursive-descent parser (src/interpreterProj.py:502-818), specified
    by functions on a parser state: the lexer's text and position and the
    current token. Every exception raised inside `parse` becomes "Syntax
    error"; a lexer that loops for ever makes the parser hang. `known` is
    the set of names the interpreter's global environment holds while the
    text is parsed. The class `Parser` is proved against these functions. */
module Parsing {
  import opened Util
  import opened Tokens
  import opened Lexing
  import opened Syntax

  /** The lexer's text and position, and `current_token` (None at the end). */
  datatype PState = PState(text: string, pos: nat, tok: Option<Token>)

  datatype PError = SyntaxError | Hang

  /** The outcome of one parsing routine: its value and the state after it,
      or the error it raises. */
  datatype Parsed<+T> = Done(value: T, rest: PState) | Fail(error: PError)

  /** Characters still to lex plus the current token: every `eat` lowers it. */
  function Measure(st: PState): nat {
    (if st.pos <= |st.text| then |st.text| - st.pos else 0) + (if st.tok.Some? then 1 else 0)
  }

  /** Lexing the next token from `pos`: the state `get_next_token` leaves, or
      the failing scan. */
  function Lex(text: string, pos: nat): (r: Result<PState, Scan>)
    ensures r.Ok? ==> r.value.text == text && r.value.pos <= |text|
    ensures r.Ok? && r.value.tok.Some? ==> pos < r.value.pos
    ensures r.Err? ==> r.error.InvalidCharacter? || r.error.Stuck?
  {
    match NextToken(text, pos)
    case Produced(t, n) => Ok(PState(text, n, Some(t)))
    case AtEnd => Ok(PState(text, |text|, None))
    case other => Err(other)
  }

  /** A lexer failure inside `parse`: "Invalid character" is re-raised as
      "Syntax error"; a lexer that is stuck never returns. */
  function LexFailure(s: Scan): PError {
    if s.Stuck? then Hang else SyntaxError
  }

  /** `current_token` is the text token `k`/`s`. */
  predicate Is(tok: Option<Token>, k: TextKind, s: string) {
    tok == Some(TextToken(k, s))
  }

  /** `eat(ty)`: only the token's type is checked. It returns the token eaten. */
  function Eat(st: PState, ty: TokenType): (r: Parsed<Token>)
    ensures r.Done? <==> st.tok.Some? && st.tok.value.Type() == ty && Lex(st.text, st.pos).Ok?
    ensures r.Done? ==> r.value == st.tok.value && r.rest.text == st.text
    ensures r.Done? ==> Measure(r.rest) < Measure(st)
  {
    if st.tok.None? || st.tok.value.Type() != ty then Fail(SyntaxError)
    else
      match Lex(st.text, st.pos)
      case Ok(s1) => Done(st.tok.value, s1)
      case Err(s) => Fail(LexFailure(s))
  }

  /** The four left-to-right loops of `term` and `expr`, in the order they run. */
  datatype Tier = ArithTier | CompareTier | LogicTier | OrTier

  /** The token type each tier eats. */
  function TierType(tier: Tier): TokenType {
    match tier
    case ArithTier => Operator
    case CompareTier => Comparator
    case LogicTier => LogicOperator
    case OrTier => OrFunc
  }

  /** The condition of each loop: the current token is one of the tier's
      operators. */
  predicate TierMatches(tier: Tier, tok: Option<Token>) {
    tok.Some? && tok.value.TextToken? && tok.value.kind == TierType(tier) &&
    match tier
    case ArithTier => tok.value.text in {"*", "/", "%", "-", "+"}
    case CompareTier => tok.value.text in {"==", "!=", ">", "<", ">=", "<="}
    case LogicTier => tok.value.text in {"&&", "||"}
    case OrTier => tok.value.text == "or"
  }

  /** The node one loop iteration builds: `BinOp(left, op, right)`, or
      `advancedFuncOp(left, "or", right)` for the `or` loop. */
  function Combine(tier: Tier, op: string, left: Node, right: Node): (n: Node)
    ensures tier.OrTier? ==> n == OrSeq(left, right)
    ensures !tier.OrTier? && op in OperatorTexts ==> n == BinOp(left, OpFromText(op).value, right)
  {
    if tier.OrTier? then OrSeq(left, right)
    else match OpFromText(op)
      case Some(o) => BinOp(left, o, right)
      case None => OrSeq(left, right)
  }

  /** `factor`. A `FuncOp` it returns (from inside brackets) has a call on
      its left, as every `FuncOp` the parser builds. */
  function Factor(st: PState, fn: string, known: set<string>): (r: Parsed<Node>)
    ensures r.Done? ==> r.rest.text == st.text && Measure(r.rest) < Measure(st)
    ensures r.Done? && r.value.FuncOp? ==> r.value.left.FuncCall?
    decreases Measure(st), 1
  {
    if st.tok.None? then Fail(SyntaxError)
    else
      var t := st.tok.value;
      if t == TextToken(Keyword, "lambd") then LambdaExpr(st, known)
      else if t.NumberToken? then
        match Eat(st, Integer)
        case Done(_, s1) => Done(Num(t.n), s1)
        case Fail(e) => Fail(e)
      else if t.BooleanToken? then
        match Eat(st, Boolean)
        case Done(_, s1) => Done(Bool(t.b), s1)
        case Fail(e) => Fail(e)
      else if t.text in known then NamedCall(st, known)
      else if t.kind == TokenType.Identifier && t.text != fn then
        match Eat(st, TokenType.Identifier)
        case Done(_, s1) => Done(Var(t.text), s1)
        case Fail(e) => Fail(e)
      else if t.kind == TokenType.Identifier then NamedCall(st, known)
      else if t == TextToken(Punctuation, "(") && CharAt(st.text, st.pos) == Some('-') then
        NegativeLiteral(st)
      else if t == TextToken(Punctuation, "(") then Bracketed(st, fn, known)
      else if t == TextToken(Operator, "!") then Negation(st, fn, known)
      else Fail(SyntaxError)
  }

  /** The `( expr )` rule of `factor`; the closing bracket is checked by type only. */
  function Bracketed(st: PState, fn: string, known: set<string>): (r: Parsed<Node>)
    ensures r.Done? ==> r.rest.text == st.text && Measure(r.rest) < Measure(st)
    ensures r.Done? && r.value.FuncOp? ==> r.value.left.FuncCall?
    decreases Measure(st), 0
  {
    match Eat(st, Punctuation)
    case Fail(e) => Fail(e)
    case Done(_, s1) =>
      match Expr(s1, fn, known)
      case Fail(e) => Fail(e)
      case Done(inner, s2) =>
        match Eat(s2, Punctuation)
        case Fail(e) => Fail(e)
        case Done(_, s3) => Done(inner, s3)
  }

  /** The `! factor` rule of `factor`. */
  function Negation(st: PState, fn: string, known: set<string>): (r: Parsed<Node>)
    ensures r.Done? ==> r.rest.text == st.text && Measure(r.rest) < Measure(st)
    ensures r.Done? ==> r.value.UnaryOp?
    decreases Measure(st), 0
  {
    match Eat(st, Operator)
    case Fail(e) => Fail(e)
    case Done(_, s1) =>
      match Factor(s1, fn, known)
      case Fail(e) => Fail(e)
      case Done(operand, s2) => Done(UnaryOp(operand), s2)
  }

  /** The `(-N)` rule of `factor`: `(`, an operator, an integer and one more
      punctuation token give `Num(-N)`. */
  function NegativeLiteral(st: PState): (r: Parsed<Node>)
    ensures r.Done? ==> r.rest.text == st.text && Measure(r.rest) < Measure(st)
    ensures r.Done? ==> r.value.Num?
  {
    match Eat(st, Punctuation)
    case Fail(e) => Fail(e)
    case Done(_, s1) =>
      match Eat(s1, Operator)
      case Fail(e) => Fail(e)
      case Done(_, s2) =>
        match Eat(s2, Integer)
        case Fail(e) => Fail(e)
        case Done(numeral, s3) =>
          match Eat(s3, Punctuation)
          case Fail(e) => Fail(e)
          case Done(_, s4) => Done(Num(-1 * numeral.n), s4)
  }

  /** A call inside an expression: name, `(`, one or more comma-separated
      expressions (each parsed with an empty function name), one more
      punctuation token. */
  function NamedCall(st: PState, known: set<string>): (r: Parsed<Node>)
    ensures r.Done? ==> r.rest.text == st.text && Measure(r.rest) < Measure(st)
    ensures r.Done? ==> r.value.FuncCall? && |r.value.args| > 0
    decreases Measure(st), 0
  {
    match Eat(st, TokenType.Identifier)
    case Fail(e) => Fail(e)
    case Done(name, s1) =>
      match Eat(s1, Punctuation)
      case Fail(e) => Fail(e)
      case Done(_, s2) =>
        match Expr(s2, "", known)
        case Fail(e) => Fail(e)
        case Done(first, s3) =>
          match ArgTail([first], s3, known)
          case Fail(e) => Fail(e)
          case Done(args, s4) =>
            match Eat(s4, Punctuation)
            case Fail(e) => Fail(e)
            case Done(_, s5) => Done(FuncCall(name.text, args), s5)
  }

  /** The `while current_token is ","` loop collecting further arguments. */
  function ArgTail(args: seq<Node>, st: PState, known: set<string>): (r: Parsed<seq<Node>>)
    ensures r.Done? ==> r.rest.text == st.text && Measure(r.rest) <= Measure(st)
    ensures r.Done? ==> |r.value| >= |args|
    decreases Measure(st), 0
  {
    if Is(st.tok, Punctuation, ",") then
      match Eat(st, Punctuation)
      case Fail(e) => Fail(e)
      case Done(_, s1) =>
        match Expr(s1, "", known)
        case Fail(e) => Fail(e)
        case Done(a, s2) => ArgTail(args + [a], s2, known)
    else Done(args, st)
  }

  /** One of the four loops of `term`/`expr`: while the current token belongs
      to the tier, eat it, parse a factor and fold it onto `left`. */
  function Fold(tier: Tier, left: Node, st: PState, fn: string, known: set<string>): (r: Parsed<Node>)
    ensures r.Done? ==> r.rest.text == st.text && Measure(r.rest) <= Measure(st)
    ensures r.Done? ==> !TierMatches(tier, r.rest.tok)
    ensures r.Done? && r.value.FuncOp? ==> r.value == left
    decreases Measure(st), 2
  {
    if TierMatches(tier, st.tok) then
      var op := st.tok.value.text;
      match Eat(st, TierType(tier))
      case Fail(e) => Fail(e)
      case Done(_, s1) =>
        match Factor(s1, fn, known)
        case Fail(e) => Fail(e)
        case Done(right, s2) => Fold(tier, Combine(tier, op, left, right), s2, fn, known)
    else Done(left, st)
  }

  /** The four loops in the order `term` and `expr` run them: they end on a
      token that is not `or`, and a node they build is never a `FuncOp`. */
  function Folds(left: Node, st: PState, fn: string, known: set<string>): (r: Parsed<Node>)
    ensures r.Done? ==> r.rest.text == st.text && Measure(r.rest) <= Measure(st)
    ensures r.Done? ==> !TierMatches(OrTier, r.rest.tok)
    ensures r.Done? && r.value.FuncOp? ==> r.value == left
    decreases Measure(st), 3
  {
    match Fold(ArithTier, left, st, fn, known)
    case Fail(e) => Fail(e)
    case Done(l1, s1) =>
      match Fold(CompareTier, l1, s1, fn, known)
      case Fail(e) => Fail(e)
      case Done(l2, s2) =>
        match Fold(LogicTier, l2, s2, fn, known)
        case Fail(e) => Fail(e)
        case Done(l3, s3) => Fold(OrTier, l3, s3, fn, known)
  }

  /** `term`: a factor followed by the four loops. */
  function Term(st: PState, fn: string, known: set<string>): (r: Parsed<Node>)
    ensures r.Done? ==> r.rest.text == st.text && Measure(r.rest) < Measure(st)
    ensures r.Done? ==> !TierMatches(OrTier, r.rest.tok)
    ensures r.Done? && r.value.FuncOp? ==> r.value.left.FuncCall?
    decreases Measure(st), 4
  {
    match Factor(st, fn, known)
    case Fail(e) => Fail(e)
    case Done(l, s1) => Folds(l, s1, fn, known)
  }

  /** `expr`: a term, the four loops again, then at most one `, factor`
      that turns a call into a `FuncOp` (after one step `left` is no longer
      a `FuncCall`, so the loop stops). */
  function Expr(st: PState, fn: string, known: set<string>): (r: Parsed<Node>)
    ensures r.Done? ==> r.rest.text == st.text && Measure(r.rest) < Measure(st)
    ensures r.Done? && r.value.FuncOp? ==> r.value.left.FuncCall?
    decreases Measure(st), 5
  {
    match Term(st, fn, known)
    case Fail(e) => Fail(e)
    case Done(l, s1) =>
      match Folds(l, s1, fn, known)
      case Fail(e) => Fail(e)
      case Done(l2, s2) =>
        if l2.FuncCall? && Is(s2.tok, Punctuation, ",") then
          match Eat(s2, Punctuation)
          case Fail(e) => Fail(e)
          case Done(_, s3) =>
            match Factor(s3, fn, known)
            case Fail(e) => Fail(e)
            case Done(right, s4) => Done(FuncOp(l2, right), s4)
        else Done(l2, s2)
  }

  /** `lambda_expr`: `lambd`, `(`, parameters, `)`, `(`, body, `)`: each
      bracket is checked by type only. */
  function LambdaExpr(st: PState, known: set<string>): (r: Parsed<Node>)
    ensures r.Done? ==> r.rest.text == st.text && Measure(r.rest) < Measure(st)
    ensures r.Done? ==> r.value.Lambda?
    decreases Measure(st), 0
  {
    match Eat(st, Keyword)
    case Fail(e) => Fail(e)
    case Done(_, s1) =>
      match Eat(s1, Punctuation)
      case Fail(e) => Fail(e)
      case Done(_, s2) =>
        match Params([], s2)
        case Fail(e) => Fail(e)
        case Done(ps, s3) =>
          match Eat(s3, Punctuation)
          case Fail(e) => Fail(e)
          case Done(_, s4) =>
            match Eat(s4, Punctuation)
            case Fail(e) => Fail(e)
            case Done(_, s5) =>
              match Expr(s5, "", known)
              case Fail(e) => Fail(e)
              case Done(body, s6) =>
                match Eat(s6, Punctuation)
                case Fail(e) => Fail(e)
                case Done(_, s7) => Done(Lambda(ps, body), s7)
  }

  /** `params`: identifiers, each optionally followed by a comma. */
  function Params(acc: seq<string>, st: PState): (r: Parsed<seq<string>>)
    ensures r.Done? ==> r.rest.text == st.text && Measure(r.rest) <= Measure(st)
    ensures r.Done? ==> r.rest.tok.None? || r.rest.tok.value.Type() != TokenType.Identifier
    decreases Measure(st)
  {
    if st.tok.Some? && st.tok.value.Type() == TokenType.Identifier then
      var p := st.tok.value.text;
      match Eat(st, TokenType.Identifier)
      case Fail(e) => Fail(e)
      case Done(_, s1) =>
        if Is(s1.tok, Punctuation, ",") then
          match Eat(s1, Punctuation)
          case Fail(e) => Fail(e)
          case Done(_, s2) => Params(acc + [p], s2)
        else Params(acc + [p], s1)
    else Done(acc, st)
  }

  /** `function_definition`: `Defun`, `{`, name, `,`, parameters, `}`, body;
      the body is parsed with the new function's name. */
  function FunctionDefinition(st: PState, known: set<string>): (r: Parsed<Stmt>)
    ensures r.Done? ==> r.rest.text == st.text && Measure(r.rest) < Measure(st)
    ensures r.Done? ==> r.value.FuncDef?
  {
    match Eat(st, Keyword)
    case Fail(e) => Fail(e)
    case Done(_, s1) =>
      match Eat(s1, Punctuation)
      case Fail(e) => Fail(e)
      case Done(_, s2) =>
        match Eat(s2, TokenType.Identifier)
        case Fail(e) => Fail(e)
        case Done(name, s3) =>
          match Eat(s3, Punctuation)
          case Fail(e) => Fail(e)
          case Done(_, s4) =>
            match Params([], s4)
            case Fail(e) => Fail(e)
            case Done(ps, s5) =>
              match Eat(s5, Punctuation)
              case Fail(e) => Fail(e)
              case Done(_, s6) =>
                match Expr(s6, name.text, known)
                case Fail(e) => Fail(e)
                case Done(body, s7) => Done(FuncDef(name.text, ps, body), s7)
  }

  /** `function_call`, the statement-level call: the argument list may be
      empty, and an argument that starts with an identifier is itself parsed
      as a statement-level call. */
  function FunctionCall(st: PState, known: set<string>): (r: Parsed<Node>)
    ensures r.Done? ==> r.rest.text == st.text && Measure(r.rest) < Measure(st)
    ensures r.Done? ==> r.value.FuncCall?
    decreases Measure(st), 6
  {
    match Eat(st, TokenType.Identifier)
    case Fail(e) => Fail(e)
    case Done(name, s1) =>
      match Eat(s1, Punctuation)
      case Fail(e) => Fail(e)
      case Done(_, s2) =>
        if s2.tok.None? then Fail(SyntaxError)
        else if s2.tok.value.Type() == Punctuation && s2.tok.value.text == ")" then
          match Eat(s2, Punctuation)
          case Fail(e) => Fail(e)
          case Done(_, s3) => Done(FuncCall(name.text, []), s3)
        else
          match StmtArg(s2, known)
          case Fail(e) => Fail(e)
          case Done(first, s3) =>
            match StmtArgTail([first], s3, known)
            case Fail(e) => Fail(e)
            case Done(args, s4) =>
              match Eat(s4, Punctuation)
              case Fail(e) => Fail(e)
              case Done(_, s5) => Done(FuncCall(name.text, args), s5)
  }

  /** One argument of a statement-level call. */
  function StmtArg(st: PState, known: set<string>): (r: Parsed<Node>)
    ensures r.Done? ==> r.rest.text == st.text && Measure(r.rest) < Measure(st)
    decreases Measure(st), 7
  {
    if st.tok.None? then Fail(SyntaxError)
    else if st.tok.value.Type() == TokenType.Identifier then FunctionCall(st, known)
    else Expr(st, "", known)
  }

  function StmtArgTail(args: seq<Node>, st: PState, known: set<string>): (r: Parsed<seq<Node>>)
    ensures r.Done? ==> r.rest.text == st.text && Measure(r.rest) <= Measure(st)
    ensures r.Done? ==> |r.value| >= |args|
    decreases Measure(st), 0
  {
    if Is(st.tok, Punctuation, ",") then
      match Eat(st, Punctuation)
      case Fail(e) => Fail(e)
      case Done(_, s1) =>
        match StmtArg(s1, known)
        case Fail(e) => Fail(e)
        case Done(a, s2) => StmtArgTail(args + [a], s2, known)
    else Done(args, st)
  }

  /** `statement`. */
  function Statement(st: PState, known: set<string>): (r: Parsed<Stmt>)
    ensures r.Done? ==> r.rest.text == st.text && Measure(r.rest) < Measure(st)
  {
    if st.tok.None? then Fail(SyntaxError)
    else if st.tok.value == TextToken(Keyword, "Defun") then FunctionDefinition(st, known)
    else
      var e :=
        if st.tok.value == TextToken(Keyword, "lambd") then LambdaExpr(st, known)
        else if st.tok.value.Type() == TokenType.Identifier then FunctionCall(st, known)
        else Expr(st, "", known);
      match e
      case Fail(err) => Fail(err)
      case Done(n, s1) => Done(ExprStmt(n), s1)
  }

  /** The loop of `parse`: statements until the tokens run out, each
      optionally followed by `;`. The statements read so far stay in front. */
  function ParseLoop(acc: seq<Stmt>, st: PState, known: set<string>): (r: Result<seq<Stmt>, PError>)
    ensures r.Ok? ==> acc <= r.value
    decreases Measure(st)
  {
    if st.tok.None? then Ok(acc)
    else
      match Statement(st, known)
      case Fail(e) => Err(e)
      case Done(s, s1) =>
        if Is(s1.tok, Punctuation, ";") then
          match Eat(s1, Punctuation)
          case Fail(e) => Err(e)
          case Done(_, s2) => ParseLoop(acc + [s], s2, known)
        else ParseLoop(acc + [s], s1, known)
  }

  /** The state `Parser.__init__` leaves: the first token is read outside
      `parse`, so its "Invalid character" is not turned into "Syntax error". */
  function Start(text: string): (r: Result<PState, Scan>)
    ensures r.Ok? ==> r.value.text == text
    ensures r.Err? ==> r.error.InvalidCharacter? || r.error.Stuck?
  {
    Lex(text, 0)
  }
}
