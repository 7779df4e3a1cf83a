/** The `Parser` object (src/interpreterProj.py:502-818): a lexer, the
    interpreter's names and `current_token`. Each method is proved to do
    what the function of the same name in `Parsing` specifies, starting from
    the state it is called in; loops in the source are loops here. */
module Parsers {
  import opened Util
  import opened Tokens
  import opened Lexing
  import opened Syntax
  import opened Parsing

  /** A method's outcome `r` and the state `now` it leaves agree with the
      specified outcome `p`. */
  predicate Realizes<T(==)>(r: Result<T, PError>, p: Parsed<T>, now: PState) {
    match p
    case Done(v, rest) => r == Ok(v) && now == rest
    case Fail(e) => r == Err(e)
  }

  class Parser {
    const lexer: Lexer
    /** The keys of the interpreter's global environment. */
    const known: set<string>
    var currentToken: Option<Token>

    ghost predicate Valid()
      reads this, lexer
    {
      lexer.Valid()
    }

    function State(): PState
      reads this, lexer
    {
      PState(lexer.text, lexer.pos, currentToken)
    }

    /** `Parser.__init__` once the first token has been read (`Open` reads it). */
    constructor (lexer: Lexer, known: set<string>, first: Option<Token>)
      requires lexer.Valid()
      ensures Valid() && this.lexer == lexer && this.known == known && currentToken == first
    {
      this.lexer := lexer;
      this.known := known;
      currentToken := first;
    }

    method Eat(ty: TokenType) returns (r: Result<Token, PError>)
      requires Valid()
      modifies this, lexer
      ensures Valid() && Realizes(r, Parsing.Eat(old(State()), ty), State())
    {
      if currentToken.None? || currentToken.value.Type() != ty {
        return Err(SyntaxError);
      }
      var t := currentToken.value;
      var s := lexer.GetNextToken();
      match s
      case Produced(tok, _) =>
        currentToken := Some(tok);
        r := Ok(t);
      case AtEnd =>
        currentToken := None;
        r := Ok(t);
      case InvalidCharacter =>
        r := Err(SyntaxError);
      case Stuck =>
        r := Err(Hang);
    }

    method Factor(fn: string) returns (r: Result<Node, PError>)
      requires Valid()
      modifies this, lexer
      ensures Valid() && Realizes(r, Parsing.Factor(old(State()), fn, known), State())
      decreases Measure(State()), 1
    {
      if currentToken.None? {
        return Err(SyntaxError);
      }
      var t := currentToken.value;
      if t == TextToken(Keyword, "lambd") {
        r := LambdaExpr();
      } else if t.NumberToken? {
        var e := Eat(Integer);
        r := if e.Ok? then Ok(Num(t.n)) else Err(e.error);
      } else if t.BooleanToken? {
        var e := Eat(Boolean);
        r := if e.Ok? then Ok(Bool(t.b)) else Err(e.error);
      } else if t.text in known {
        r := NamedCall();
      } else if t.kind == TokenType.Identifier && t.text != fn {
        var e := Eat(TokenType.Identifier);
        r := if e.Ok? then Ok(Var(t.text)) else Err(e.error);
      } else if t.kind == TokenType.Identifier {
        r := NamedCall();
      } else if t == TextToken(Punctuation, "(") && lexer.currentChar == Some('-') {
        r := NegativeLiteral();
      } else if t == TextToken(Punctuation, "(") {
        r := Bracketed(fn);
      } else if t == TextToken(Operator, "!") {
        r := Negation(fn);
      } else {
        r := Err(SyntaxError);
      }
    }

    method Bracketed(fn: string) returns (r: Result<Node, PError>)
      requires Valid()
      modifies this, lexer
      ensures Valid() && Realizes(r, Parsing.Bracketed(old(State()), fn, known), State())
      decreases Measure(State()), 0
    {
      var e := Eat(Punctuation);
      if e.Err? {
        return Err(e.error);
      }
      var inner := Expr(fn);
      if inner.Err? {
        return inner;
      }
      e := Eat(Punctuation);
      r := if e.Ok? then inner else Err(e.error);
    }

    method Negation(fn: string) returns (r: Result<Node, PError>)
      requires Valid()
      modifies this, lexer
      ensures Valid() && Realizes(r, Parsing.Negation(old(State()), fn, known), State())
      decreases Measure(State()), 0
    {
      var e := Eat(Operator);
      if e.Err? {
        return Err(e.error);
      }
      var operand := Factor(fn);
      r := if operand.Ok? then Ok(UnaryOp(operand.value)) else operand;
    }

    method NegativeLiteral() returns (r: Result<Node, PError>)
      requires Valid()
      modifies this, lexer
      ensures Valid() && Realizes(r, Parsing.NegativeLiteral(old(State())), State())
    {
      var e := Eat(Punctuation);
      if e.Err? {
        return Err(e.error);
      }
      e := Eat(Operator);
      if e.Err? {
        return Err(e.error);
      }
      var numeral := Eat(Integer);
      if numeral.Err? {
        return Err(numeral.error);
      }
      e := Eat(Punctuation);
      r := if e.Ok? then Ok(Num(-1 * numeral.value.n)) else Err(e.error);
    }

    /** The call branches of `factor`. */
    method NamedCall() returns (r: Result<Node, PError>)
      requires Valid()
      modifies this, lexer
      ensures Valid() && Realizes(r, Parsing.NamedCall(old(State()), known), State())
      decreases Measure(State()), 0
    {
      ghost var st0 := State();
      var name := Eat(TokenType.Identifier);
      if name.Err? {
        return Err(name.error);
      }
      var e := Eat(Punctuation);
      if e.Err? {
        return Err(e.error);
      }
      var first := Expr("");
      if first.Err? {
        return first;
      }
      var args := [first.value];
      while Is(currentToken, Punctuation, ",")
        invariant Valid() && Measure(State()) < Measure(st0)
        invariant Parsing.NamedCall(st0, known) ==
          match ArgTail(args, State(), known)
          case Fail(err) => Fail(err)
          case Done(all, s4) =>
            match Parsing.Eat(s4, Punctuation)
            case Fail(err) => Fail(err)
            case Done(_, s5) => Done(FuncCall(name.value.text, all), s5)
        decreases Measure(State())
      {
        e := Eat(Punctuation);
        if e.Err? {
          return Err(e.error);
        }
        var a := Expr("");
        if a.Err? {
          return a;
        }
        args := args + [a.value];
      }
      e := Eat(Punctuation);
      r := if e.Ok? then Ok(FuncCall(name.value.text, args)) else Err(e.error);
    }

    /** One loop of `term`/`expr`, for the operators of `tier`. */
    method Fold(tier: Tier, left0: Node, fn: string) returns (r: Result<Node, PError>)
      requires Valid()
      modifies this, lexer
      ensures Valid() && Realizes(r, Parsing.Fold(tier, left0, old(State()), fn, known), State())
      decreases Measure(State()), 2
    {
      ghost var st0 := State();
      var left := left0;
      while TierMatches(tier, currentToken)
        invariant Valid() && Measure(State()) <= Measure(st0)
        invariant Parsing.Fold(tier, left, State(), fn, known) == Parsing.Fold(tier, left0, st0, fn, known)
        decreases Measure(State())
      {
        var op := currentToken.value.text;
        var e := Eat(TierType(tier));
        if e.Err? {
          return Err(e.error);
        }
        var right := Factor(fn);
        if right.Err? {
          return right;
        }
        left := Combine(tier, op, left, right.value);
      }
      r := Ok(left);
    }

    method Folds(left: Node, fn: string) returns (r: Result<Node, PError>)
      requires Valid()
      modifies this, lexer
      ensures Valid() && Realizes(r, Parsing.Folds(left, old(State()), fn, known), State())
      decreases Measure(State()), 3
    {
      r := Fold(ArithTier, left, fn);
      if r.Err? {
        return;
      }
      r := Fold(CompareTier, r.value, fn);
      if r.Err? {
        return;
      }
      r := Fold(LogicTier, r.value, fn);
      if r.Err? {
        return;
      }
      r := Fold(OrTier, r.value, fn);
    }

    method Term(fn: string) returns (r: Result<Node, PError>)
      requires Valid()
      modifies this, lexer
      ensures Valid() && Realizes(r, Parsing.Term(old(State()), fn, known), State())
      decreases Measure(State()), 4
    {
      r := Factor(fn);
      if r.Err? {
        return;
      }
      r := Folds(r.value, fn);
    }

    method Expr(fn: string) returns (r: Result<Node, PError>)
      requires Valid()
      modifies this, lexer
      ensures Valid() && Realizes(r, Parsing.Expr(old(State()), fn, known), State())
      decreases Measure(State()), 5
    {
      r := Term(fn);
      if r.Err? {
        return;
      }
      r := Folds(r.value, fn);
      if r.Err? {
        return;
      }
      if r.value.FuncCall? && Is(currentToken, Punctuation, ",") {
        var left := r.value;
        var e := Eat(Punctuation);
        if e.Err? {
          return Err(e.error);
        }
        var right := Factor(fn);
        r := if right.Ok? then Ok(FuncOp(left, right.value)) else right;
      }
    }

    method Params() returns (r: Result<seq<string>, PError>)
      requires Valid()
      modifies this, lexer
      ensures Valid() && Realizes(r, Parsing.Params([], old(State())), State())
    {
      ghost var st0 := State();
      var list := [];
      while currentToken.Some? && currentToken.value.Type() == TokenType.Identifier
        invariant Valid()
        invariant Parsing.Params(list, State()) == Parsing.Params([], st0)
        decreases Measure(State())
      {
        var p := currentToken.value.text;
        var e := Eat(TokenType.Identifier);
        if e.Err? {
          return Err(e.error);
        }
        list := list + [p];
        if Is(currentToken, Punctuation, ",") {
          e := Eat(Punctuation);
          if e.Err? {
            return Err(e.error);
          }
        }
      }
      r := Ok(list);
    }

    method LambdaExpr() returns (r: Result<Node, PError>)
      requires Valid()
      modifies this, lexer
      ensures Valid() && Realizes(r, Parsing.LambdaExpr(old(State()), known), State())
      decreases Measure(State()), 0
    {
      var e := Eat(Keyword);
      if e.Err? {
        return Err(e.error);
      }
      e := Eat(Punctuation);
      if e.Err? {
        return Err(e.error);
      }
      var ps := Params();
      if ps.Err? {
        return Err(ps.error);
      }
      e := Eat(Punctuation);
      if e.Err? {
        return Err(e.error);
      }
      e := Eat(Punctuation);
      if e.Err? {
        return Err(e.error);
      }
      var body := Expr("");
      if body.Err? {
        return body;
      }
      e := Eat(Punctuation);
      r := if e.Ok? then Ok(Lambda(ps.value, body.value)) else Err(e.error);
    }

    method FunctionDefinition() returns (r: Result<Stmt, PError>)
      requires Valid()
      modifies this, lexer
      ensures Valid() && Realizes(r, Parsing.FunctionDefinition(old(State()), known), State())
    {
      var e := Eat(Keyword);
      if e.Err? {
        return Err(e.error);
      }
      e := Eat(Punctuation);
      if e.Err? {
        return Err(e.error);
      }
      var name := Eat(TokenType.Identifier);
      if name.Err? {
        return Err(name.error);
      }
      e := Eat(Punctuation);
      if e.Err? {
        return Err(e.error);
      }
      var ps := Params();
      if ps.Err? {
        return Err(ps.error);
      }
      e := Eat(Punctuation);
      if e.Err? {
        return Err(e.error);
      }
      var body := Expr(name.value.text);
      r := if body.Ok? then Ok(FuncDef(name.value.text, ps.value, body.value)) else Err(body.error);
    }

    method FunctionCall() returns (r: Result<Node, PError>)
      requires Valid()
      modifies this, lexer
      ensures Valid() && Realizes(r, Parsing.FunctionCall(old(State()), known), State())
      decreases Measure(State()), 6
    {
      ghost var st0 := State();
      var name := Eat(TokenType.Identifier);
      if name.Err? {
        return Err(name.error);
      }
      var e := Eat(Punctuation);
      if e.Err? {
        return Err(e.error);
      }
      if currentToken.None? {
        return Err(SyntaxError);
      }
      var args := [];
      if currentToken.value.Type() != Punctuation || currentToken.value.text != ")" {
        var first := StmtArg();
        if first.Err? {
          return first;
        }
        args := [first.value];
        while Is(currentToken, Punctuation, ",")
          invariant Valid() && Measure(State()) < Measure(st0)
          invariant Parsing.FunctionCall(st0, known) ==
            match StmtArgTail(args, State(), known)
            case Fail(err) => Fail(err)
            case Done(all, s4) =>
              match Parsing.Eat(s4, Punctuation)
              case Fail(err) => Fail(err)
              case Done(_, s5) => Done(FuncCall(name.value.text, all), s5)
          decreases Measure(State())
        {
          e := Eat(Punctuation);
          if e.Err? {
            return Err(e.error);
          }
          var a := StmtArg();
          if a.Err? {
            return a;
          }
          args := args + [a.value];
        }
      }
      e := Eat(Punctuation);
      r := if e.Ok? then Ok(FuncCall(name.value.text, args)) else Err(e.error);
    }

    method StmtArg() returns (r: Result<Node, PError>)
      requires Valid()
      modifies this, lexer
      ensures Valid() && Realizes(r, Parsing.StmtArg(old(State()), known), State())
      decreases Measure(State()), 7
    {
      if currentToken.None? {
        r := Err(SyntaxError);
      } else if currentToken.value.Type() == TokenType.Identifier {
        r := FunctionCall();
      } else {
        r := Expr("");
      }
    }

    method Statement() returns (r: Result<Stmt, PError>)
      requires Valid()
      modifies this, lexer
      ensures Valid() && Realizes(r, Parsing.Statement(old(State()), known), State())
    {
      if currentToken.None? {
        return Err(SyntaxError);
      }
      if currentToken.value == TextToken(Keyword, "Defun") {
        r := FunctionDefinition();
        return;
      }
      var e;
      if currentToken.value == TextToken(Keyword, "lambd") {
        e := LambdaExpr();
      } else if currentToken.value.Type() == TokenType.Identifier {
        e := FunctionCall();
      } else {
        e := Expr("");
      }
      r := if e.Ok? then Ok(ExprStmt(e.value)) else Err(e.error);
    }

    /** `parse`: on success every token has been read. */
    method Parse() returns (r: Result<seq<Stmt>, PError>)
      requires Valid()
      modifies this, lexer
      ensures r == ParseLoop([], old(State()), known)
      ensures Valid() && (r.Ok? ==> currentToken.None?)
    {
      ghost var st0 := State();
      var statements := [];
      while currentToken.Some?
        invariant Valid()
        invariant ParseLoop(statements, State(), known) == ParseLoop([], st0, known)
        decreases Measure(State())
      {
        var s := Statement();
        if s.Err? {
          return Err(s.error);
        }
        statements := statements + [s.value];
        if Is(currentToken, Punctuation, ";") {
          var e := Eat(Punctuation);
          if e.Err? {
            return Err(e.error);
          }
        }
      }
      r := Ok(statements);
    }
  }

  /** The failures of `Parser.__init__`, which reads the first token outside
      `parse`. */
  datatype OpenError = OpenInvalidCharacter | OpenHang

  /** `Parser(lexer, interpreter)`: read the first token, then build the parser. */
  method Open(lexer: Lexer, known: set<string>) returns (r: Result<Parser, OpenError>)
    requires lexer.Valid() && lexer.pos == 0
    modifies lexer
    ensures r.Ok? ==> fresh(r.value) && r.value.Valid() && r.value.known == known && r.value.lexer == lexer
    ensures r.Ok? ==> Start(lexer.text).Ok? && r.value.State() == Start(lexer.text).value
    ensures r.Err? <==> Start(lexer.text).Err?
    ensures r.Err? ==> (r.error == OpenInvalidCharacter <==> Start(lexer.text).error == InvalidCharacter)
  {
    var s := lexer.GetNextToken();
    match s
    case Produced(tok, _) =>
      var p := new Parser(lexer, known, Some(tok));
      r := Ok(p);
    case AtEnd =>
      var p := new Parser(lexer, known, None);
      r := Ok(p);
    case InvalidCharacter =>
      r := Err(OpenInvalidCharacter);
    case Stuck =>
      r := Err(OpenHang);
  }
}
