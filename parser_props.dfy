/** What the parser promises, proved about its specification: parsing the
    token spelling of a canonical expression gives the expression back, and
    so does the whole pipeline from text (lexer, `Parser.__init__`, `parse`)
    for the rendering of such an expression. */
module ParserProperties {
  import opened Util
  import opened Tokens
  import opened Lexing
  import opened Syntax
  import opened Parsing
  import opened LexerProperties

  const LParen: Token := TextToken(Punctuation, "(")
  const RParen: Token := TextToken(Punctuation, ")")
  const Comma: Token := TextToken(Punctuation, ",")
  const Bang: Token := TextToken(Operator, "!")
  const OrWord: Token := TextToken(OrFunc, "or")
  const LambdaWord: Token := TextToken(Keyword, "lambd")

  function Name(x: string): Token {
    TextToken(TokenType.Identifier, x)
  }

  /** The tier whose loop builds a `BinOp` with operator `op`. */
  function TierOf(op: BinOperator): Tier {
    if op in {Add, Sub, Mul, Div, Mod} then ArithTier
    else if op in {Eq, Ne, Gt, Lt, Ge, Le} then CompareTier
    else LogicTier
  }

  function OpToken(op: BinOperator): (t: Token)
    ensures TierMatches(TierOf(op), Some(t)) && Lexable(t)
  {
    TextToken(TierType(TierOf(op)), OpText(op))
  }

  /** The tokens of an expression as the parser reads it: every `BinOp` and
      `OrSeq` in brackets, a call as `name ( args )`, a lambda as
      `lambd ( params ) ( body )`. */
  function Spelling(e: Node): seq<Token>
    decreases e
  {
    match e
    case Num(n) => [NumberToken(n)]
    case Bool(b) => [BooleanToken(b)]
    case Var(x) => [Name(x)]
    case BinOp(l, op, r) => [LParen] + Spelling(l) + [OpToken(op)] + Spelling(r) + [RParen]
    case UnaryOp(x) => [Bang] + Spelling(x)
    case Lambda(ps, body) => [LambdaWord, LParen] + ParamSpelling(ps) + [RParen, LParen] + Spelling(body) + [RParen]
    case FuncCall(name, args) => [Name(name), LParen] + ArgSpelling(args) + [RParen]
    case FuncOp(l, r) => Spelling(l) + [Comma] + Spelling(r)
    case OrSeq(l, r) => [LParen] + Spelling(l) + [OrWord] + Spelling(r) + [RParen]
  }

  function ArgSpelling(args: seq<Node>): seq<Token>
    decreases args
  {
    if args == [] then [] else Spelling(args[0]) + TailSpelling(args[1..])
  }

  /** `, a` for each further argument `a`. */
  function TailSpelling(args: seq<Node>): seq<Token>
    decreases args
  {
    if args == [] then [] else [Comma] + Spelling(args[0]) + TailSpelling(args[1..])
  }

  function ParamSpelling(ps: seq<string>): seq<Token> {
    if ps == [] then [] else [Name(ps[0])] + (if |ps| > 1 then [Comma] else []) + ParamSpelling(ps[1..])
  }

  /** A name the lexer reads as an IDENTIFIER. */
  predicate IdentWord(x: string) {
    Lexable(Name(x))
  }

  /** The global environment only ever holds names read as identifiers. */
  predicate NamesOnly(known: set<string>) {
    forall k :: k in known ==> IdentWord(k)
  }

  /** Expressions the parser reads back from their spelling. A variable must
      not be a known function or the function being defined (those names
      start calls); a call has at least one argument, and no argument but
      the last is itself a call (the parser would pair it with the next one
      as a `FuncOp`). `FuncOp` only arises from that pairing, so it is
      canonical only where `expr` is read: see `ExprCanonical`. */
  predicate Canonical(e: Node, fn: string, known: set<string>)
    decreases Size(e), 1
  {
    match e
    case Num(n) => n >= 0
    case Bool(_) => true
    case Var(x) => IdentWord(x) && x !in known && x != fn
    case BinOp(l, _, r) => Canonical(l, fn, known) && Canonical(r, fn, known)
    case UnaryOp(x) => Canonical(x, fn, known)
    case Lambda(ps, body) => (forall i :: 0 <= i < |ps| ==> IdentWord(ps[i])) && ExprCanonical(body, "", known)
    case FuncCall(name, args) =>
      IdentWord(name) && (name in known || name == fn) && |args| > 0 && CanonicalArgs(args, known)
    case FuncOp(_, _) => false
    case OrSeq(l, r) => Canonical(l, fn, known) && Canonical(r, fn, known)
  }

  /** What `expr` reads back: a canonical expression, or a canonical call
      paired by `,` with a canonical expression (`FuncOp`). */
  predicate ExprCanonical(e: Node, fn: string, known: set<string>)
    decreases Size(e), 2
  {
    Canonical(e, fn, known) ||
    (e.FuncOp? && e.left.FuncCall? && Canonical(e.left, fn, known) && Canonical(e.right, fn, known))
  }

  predicate CanonicalArgs(args: seq<Node>, known: set<string>)
    decreases SizeAll(args), 3
  {
    args == [] ||
    (ExprCanonical(args[0], "", known) && (|args| > 1 ==> !args[0].FuncCall?) && CanonicalArgs(args[1..], known))
  }

  /** Reading the tokens `ts` one `eat` at a time from `st`: the state after
      the last one, or None if the tokens differ. A `(` must not be directly
      followed by `-` in the text (that starts the `(-N)` rule). */
  function Walk(st: PState, ts: seq<Token>): Option<PState>
    decreases |ts|
  {
    if ts == [] then Some(st)
    else if st.tok != Some(ts[0]) || (ts[0] == LParen && CharAt(st.text, st.pos) == Some('-')) then None
    else
      match Lex(st.text, st.pos)
      case Ok(s1) => Walk(s1, ts[1..])
      case Err(_) => None
  }

  lemma {:induction false} WalkAppend(st: PState, a: seq<Token>, b: seq<Token>)
    ensures Walk(st, a + b) == (match Walk(st, a) case Some(m) => Walk(m, b) case None => None)
    decreases |a|
  {
    if a == [] {
      assert a + b == b;
    } else {
      assert (a + b)[0] == a[0] && (a + b)[1..] == a[1..] + b;
      if st.tok == Some(a[0]) && !(a[0] == LParen && CharAt(st.text, st.pos) == Some('-')) {
        match Lex(st.text, st.pos)
        case Ok(s1) =>
          assert Walk(st, a + b) == Walk(s1, a[1..] + b);
          assert Walk(st, a) == Walk(s1, a[1..]);
          WalkAppend(s1, a[1..], b);
        case Err(_) =>
      }
    }
  }

  /** Eating the next spelled token. */
  lemma WalkEat(st: PState, t: Token, rest: seq<Token>, end: PState)
    requires Walk(st, [t] + rest) == Some(end)
    ensures st.tok == Some(t)
    ensures Eat(st, t.Type()).Done? && Eat(st, t.Type()).value == t
    ensures Walk(Eat(st, t.Type()).rest, rest) == Some(end)
  {
    assert ([t] + rest)[1..] == rest;
  }

  /** The token after a spelling, when more tokens follow. */
  lemma WalkNext(st: PState, t: Token, rest: seq<Token>, end: PState)
    requires Walk(st, [t] + rest) == Some(end)
    ensures st.tok == Some(t)
  {
  }

  /** A state whose token ends an expression: none of the four loops, nor
      the `,` pairing after a non-call, continues past it. */
  predicate Closing(tok: Option<Token>) {
    tok.None? || tok.value.Type() == Punctuation
  }

  lemma FoldsStop(left: Node, st: PState, fn: string, known: set<string>)
    requires Closing(st.tok)
    ensures Folds(left, st, fn, known) == Done(left, st)
  {
  }

  /** The four loops over `op right` followed by a closing token build one
      node: the loop for `op`'s tier takes one step and all others none. */
  lemma FoldsOneStep(tier: Tier, opTok: Token, left: Node, right: Node, st: PState, s1: PState, s2: PState, fn: string, known: set<string>)
    requires st.tok == Some(opTok) && TierMatches(tier, st.tok)
    requires Eat(st, TierType(tier)) == Done(opTok, s1)
    requires Factor(s1, fn, known) == Done(right, s2) && Closing(s2.tok)
    ensures Folds(left, st, fn, known) == Done(Combine(tier, opTok.text, left, right), s2)
  {
    var n := Combine(tier, opTok.text, left, right);
    assert Fold(tier, n, s2, fn, known) == Done(n, s2);
    assert Fold(tier, left, st, fn, known) == Done(n, s2);
    match tier
    case ArithTier =>
    case CompareTier =>
      assert Fold(ArithTier, left, st, fn, known) == Done(left, st);
    case LogicTier =>
      assert Fold(ArithTier, left, st, fn, known) == Done(left, st);
      assert Fold(CompareTier, left, st, fn, known) == Done(left, st);
    case OrTier =>
      assert Fold(ArithTier, left, st, fn, known) == Done(left, st);
      assert Fold(CompareTier, left, st, fn, known) == Done(left, st);
      assert Fold(LogicTier, left, st, fn, known) == Done(left, st);
  }

  /** Within a tier the loop folds to the left: `left op1 a op2 b`, followed
      by a token the tier does not take, gives `(left op1 a) op2 b`. */
  lemma FoldLeftAssociative(tier: Tier, left: Node, a: Node, b: Node, st: PState, s1: PState, s2: PState, s3: PState, s4: PState, fn: string, known: set<string>)
    requires TierMatches(tier, st.tok) && Eat(st, TierType(tier)).Done? && Eat(st, TierType(tier)).rest == s1
    requires Factor(s1, fn, known) == Done(a, s2)
    requires TierMatches(tier, s2.tok) && Eat(s2, TierType(tier)).Done? && Eat(s2, TierType(tier)).rest == s3
    requires Factor(s3, fn, known) == Done(b, s4) && !TierMatches(tier, s4.tok)
    ensures Fold(tier, left, st, fn, known) ==
      Done(Combine(tier, s2.tok.value.text, Combine(tier, st.tok.value.text, left, a), b), s4)
  {
    var inner := Combine(tier, st.tok.value.text, left, a);
    var outer := Combine(tier, s2.tok.value.text, inner, b);
    assert Fold(tier, outer, s4, fn, known) == Done(outer, s4);
    assert Fold(tier, inner, s2, fn, known) == Done(outer, s4);
  }

  /** `factor` reads a canonical expression from its spelling. */
  lemma {:induction false} FactorSpelled(e: Node, fn: string, known: set<string>, st: PState, end: PState)
    requires NamesOnly(known) && Canonical(e, fn, known)
    requires Walk(st, Spelling(e)) == Some(end)
    ensures Factor(st, fn, known) == Done(e, end)
    decreases Size(e), 2
  {
    match e
    case Num(_) => AtomSpelled(e, fn, known, st, end);
    case Bool(_) => AtomSpelled(e, fn, known, st, end);
    case Var(_) => AtomSpelled(e, fn, known, st, end);
    case BinOp(l, op, r) => BracketSpelled(e, TierOf(op), OpToken(op), l, r, fn, known, st, end);
    case OrSeq(l, r) => BracketSpelled(e, OrTier, OrWord, l, r, fn, known, st, end);
    case UnaryOp(x) => NegationSpelled(e, fn, known, st, end);
    case Lambda(_, _) => LambdaSpelled(e, fn, known, st, end);
    case FuncCall(_, _) => CallSpelled(e, fn, known, st, end);
  }

  lemma AtomSpelled(e: Node, fn: string, known: set<string>, st: PState, end: PState)
    requires e.Num? || e.Bool? || e.Var?
    requires NamesOnly(known) && Canonical(e, fn, known)
    requires Walk(st, Spelling(e)) == Some(end)
    ensures Factor(st, fn, known) == Done(e, end)
  {
    var t := Spelling(e)[0];
    assert Spelling(e) == [t] + [];
    WalkEat(st, t, [], end);
  }

  /** Names a program can define are never a bracket or an operator. */
  lemma NotNames(known: set<string>)
    requires NamesOnly(known)
    ensures "(" !in known && "!" !in known
  {
  }

  lemma {:induction false} NegationSpelled(e: Node, fn: string, known: set<string>, st: PState, end: PState)
    requires e.UnaryOp? && NamesOnly(known) && Canonical(e, fn, known)
    requires Walk(st, Spelling(e)) == Some(end)
    ensures Factor(st, fn, known) == Done(e, end)
    decreases Size(e), 1
  {
    WalkEat(st, Bang, Spelling(e.operand), end);
    NotNames(known);
    assert Factor(st, fn, known) == Negation(st, fn, known);
    FactorSpelled(e.operand, fn, known, Eat(st, Operator).rest, end);
  }

  /** `( l op r )`, where `op` is an operator of `tier`. */
  /** Walking `a L b R c` passes through four intermediate states. */
  lemma WalkBracket(st: PState, a: Token, L: seq<Token>, b: Token, R: seq<Token>, c: Token, end: PState)
    returns (s1: PState, s2: PState, s3: PState, s4: PState)
    requires Walk(st, [a] + L + [b] + R + [c]) == Some(end)
    ensures st.tok == Some(a) && Eat(st, a.Type()) == Done(a, s1)
    ensures a == LParen ==> CharAt(st.text, st.pos) != Some('-')
    ensures Walk(s1, L) == Some(s2)
    ensures s2.tok == Some(b) && Eat(s2, b.Type()) == Done(b, s3)
    ensures Walk(s3, R) == Some(s4)
    ensures s4.tok == Some(c) && Eat(s4, c.Type()) == Done(c, end)
  {
    WalkSplit(st, [a] + L + [b] + R, [c], end);
    s4 := Walk(st, [a] + L + [b] + R).value;
    WalkSplit(st, [a] + L + [b], R, s4);
    s3 := Walk(st, [a] + L + [b]).value;
    WalkSplit(st, [a] + L, [b], s3);
    s2 := Walk(st, [a] + L).value;
    WalkSplit(st, [a], L, s2);
    s1 := Walk(st, [a]).value;
    assert [a] == [a] + [] && [b] == [b] + [] && [c] == [c] + [];
    WalkEat(st, a, [], s1);
    WalkEat(s2, b, [], s3);
    WalkEat(s4, c, [], end);
  }

  /** `( l op r )`, where `op` is an operator of `tier`. */
  lemma {:induction false} BracketSpelled(e: Node, tier: Tier, opTok: Token, l: Node, r: Node, fn: string, known: set<string>, st: PState, end: PState)
    requires NamesOnly(known) && Canonical(l, fn, known) && Canonical(r, fn, known)
    requires TierMatches(tier, Some(opTok)) && e == Combine(tier, opTok.text, l, r)
    requires Size(l) < Size(e) && Size(r) < Size(e)
    requires Walk(st, [LParen] + Spelling(l) + [opTok] + Spelling(r) + [RParen]) == Some(end)
    ensures Factor(st, fn, known) == Done(e, end)
    decreases Size(e), 1
  {
    var s1, s2, s3, s4 := WalkBracket(st, LParen, Spelling(l), opTok, Spelling(r), RParen, end);
    FactorSpelled(l, fn, known, s1, s2);
    FactorSpelled(r, fn, known, s3, s4);
    FoldsOneStep(tier, opTok, l, r, s2, s3, s4, fn, known);
    BracketParse(e, l, fn, known, st, s1, s2, s4, end);
  }

  /** The parse steps of a bracketed node once its inner parts are known. */
  lemma BracketParse(e: Node, l: Node, fn: string, known: set<string>, st: PState, s1: PState, s2: PState, s4: PState, end: PState)
    requires NamesOnly(known) && !e.FuncCall?
    requires st.tok == Some(LParen) && CharAt(st.text, st.pos) != Some('-')
    requires Eat(st, Punctuation) == Done(LParen, s1)
    requires Factor(s1, fn, known) == Done(l, s2)
    requires Folds(l, s2, fn, known) == Done(e, s4)
    requires s4.tok == Some(RParen) && Eat(s4, Punctuation) == Done(RParen, end)
    ensures Factor(st, fn, known) == Done(e, end)
  {
    FoldsStop(e, s4, fn, known);
    assert Term(s1, fn, known) == Done(e, s4);
    assert Expr(s1, fn, known) == Done(e, s4);
    assert Bracketed(st, fn, known) == Done(e, end);
    NotNames(known);
  }

  /** `expr` reads a canonical expression or pair followed by a closing
      token. */
  lemma {:induction false} ExprSpelled(e: Node, fn: string, known: set<string>, st: PState, end: PState)
    requires NamesOnly(known) && ExprCanonical(e, fn, known)
    requires Walk(st, Spelling(e)) == Some(end)
    requires Closing(end.tok) && !(e.FuncCall? && Is(end.tok, Punctuation, ","))
    ensures Expr(st, fn, known) == Done(e, end)
    decreases Size(e), 3
  {
    if Canonical(e, fn, known) {
      FactorSpelled(e, fn, known, st, end);
      FoldsStop(e, end, fn, known);
    } else {
      PairSpelled(e, fn, known, st, end);
    }
  }

  /** The `, factor` step of `expr`: a call, `,` and an expression make a
      `FuncOp`, whatever token follows them (the step is taken at most
      once). */
  lemma {:induction false} PairSpelled(e: Node, fn: string, known: set<string>, st: PState, end: PState)
    requires NamesOnly(known) && e.FuncOp? && e.left.FuncCall?
    requires Canonical(e.left, fn, known) && Canonical(e.right, fn, known)
    requires Walk(st, Spelling(e.left) + [Comma] + Spelling(e.right)) == Some(end)
    ensures Expr(st, fn, known) == Done(e, end)
    decreases Size(e), 2
  {
    WalkSplit(st, Spelling(e.left) + [Comma], Spelling(e.right), end);
    var m2 := Walk(st, Spelling(e.left) + [Comma]).value;
    WalkSplit(st, Spelling(e.left), [Comma], m2);
    var m1 := Walk(st, Spelling(e.left)).value;
    assert [Comma] == [Comma] + [];
    WalkEat(m1, Comma, [], m2);
    FactorSpelled(e.left, fn, known, st, m1);
    FactorSpelled(e.right, fn, known, m2, end);
    PairParse(e, fn, known, st, m1, m2, end);
  }

  /** The steps of `expr` once the call and the expression after `,` are
      read. */
  lemma PairParse(e: Node, fn: string, known: set<string>, st: PState, m1: PState, m2: PState, end: PState)
    requires e.FuncOp? && e.left.FuncCall?
    requires Factor(st, fn, known) == Done(e.left, m1)
    requires m1.tok == Some(Comma) && Eat(m1, Punctuation) == Done(Comma, m2)
    requires Factor(m2, fn, known) == Done(e.right, end)
    ensures Expr(st, fn, known) == Done(e, end)
  {
    FoldsStop(e.left, m1, fn, known);
    assert Term(st, fn, known) == Done(e.left, m1);
  }

  /** The tokens from `st` to `end` spell the parameter names `ps`, and what
      follows them is neither a name nor `,`. */
  predicate ParamsWalk(ps: seq<string>, st: PState, end: PState) {
    && (forall i :: 0 <= i < |ps| ==> IdentWord(ps[i]))
    && Walk(st, ParamSpelling(ps)) == Some(end)
    && (end.tok.None? || (end.tok.value.Type() != TokenType.Identifier && end.tok != Some(Comma)))
  }

  lemma {:induction false} ParamsSpelled(acc: seq<string>, ps: seq<string>, st: PState, end: PState)
    requires ParamsWalk(ps, st, end)
    ensures Params(acc, st) == Done(acc + ps, end)
    decreases |ps|
  {
    if ps == [] {
      ParamsEnd(acc, st, end);
      assert acc + ps == acc;
    } else {
      var next := ParamsHead(acc, ps, st, end);
      AppendShift(acc, ps);
      ParamsSpelled(acc + [ps[0]], ps[1..], next, end);
    }
  }

  lemma ParamsEnd(acc: seq<string>, st: PState, end: PState)
    requires Walk(st, []) == Some(end)
    requires end.tok.None? || end.tok.value.Type() != TokenType.Identifier
    ensures Params(acc, st) == Done(acc, end)
  {
  }

  /** The first parameter name, and the `,` after it when more follow. */
  lemma ParamsHead(acc: seq<string>, ps: seq<string>, st: PState, end: PState) returns (next: PState)
    requires ps != [] && ParamsWalk(ps, st, end)
    ensures ParamsWalk(ps[1..], next, end)
    ensures Params(acc, st) == Params(acc + [ps[0]], next)
  {
    assert forall i :: 0 <= i < |ps[1..]| ==> ps[1..][i] == ps[i + 1];
    var more := if |ps| > 1 then [Comma] else [];
    assert ParamSpelling(ps) == [Name(ps[0])] + (more + ParamSpelling(ps[1..]));
    WalkEat(st, Name(ps[0]), more + ParamSpelling(ps[1..]), end);
    var s1 := Eat(st, TokenType.Identifier).rest;
    if |ps| > 1 {
      WalkEat(s1, Comma, ParamSpelling(ps[1..]), end);
      next := Eat(s1, Punctuation).rest;
    } else {
      assert more + ParamSpelling(ps[1..]) == [];
      next := s1;
    }
  }

  lemma WalkSplit(st: PState, a: seq<Token>, b: seq<Token>, end: PState)
    requires Walk(st, a + b) == Some(end)
    ensures Walk(st, a).Some? && Walk(Walk(st, a).value, b) == Some(end)
  {
    WalkAppend(st, a, b);
  }

  /** Walking `lambd ( P ) ( B )`. */
  lemma WalkLambda(st: PState, P: seq<Token>, B: seq<Token>, end: PState)
    returns (s2: PState, s3: PState, s5: PState, s6: PState)
    requires Walk(st, [LambdaWord, LParen] + P + [RParen, LParen] + B + [RParen]) == Some(end)
    ensures st.tok == Some(LambdaWord) && Eat(st, Keyword).Done?
    ensures Eat(st, Keyword).rest.tok == Some(LParen)
    ensures Eat(Eat(st, Keyword).rest, Punctuation) == Done(LParen, s2)
    ensures Walk(s2, P) == Some(s3)
    ensures s3.tok == Some(RParen) && Eat(s3, Punctuation).Done?
    ensures Eat(s3, Punctuation).rest.tok == Some(LParen)
    ensures Eat(Eat(s3, Punctuation).rest, Punctuation) == Done(LParen, s5)
    ensures Walk(s5, B) == Some(s6)
    ensures s6.tok == Some(RParen) && Eat(s6, Punctuation) == Done(RParen, end)
  {
    var head := [LambdaWord, LParen];
    WalkSplit(st, head + P + [RParen, LParen] + B, [RParen], end);
    s6 := Walk(st, head + P + [RParen, LParen] + B).value;
    WalkSplit(st, head + P + [RParen, LParen], B, s6);
    s5 := Walk(st, head + P + [RParen, LParen]).value;
    WalkSplit(st, head + P, [RParen, LParen], s5);
    s3 := Walk(st, head + P).value;
    WalkSplit(st, head, P, s3);
    s2 := Walk(st, head).value;
    assert head == [LambdaWord] + [LParen] && [LParen] == [LParen] + [];
    assert [RParen, LParen] == [RParen] + [LParen] && [RParen] == [RParen] + [];
    WalkEat(st, LambdaWord, [LParen], s2);
    WalkEat(Eat(st, Keyword).rest, LParen, [], s2);
    WalkEat(s3, RParen, [LParen], s5);
    WalkEat(Eat(s3, Punctuation).rest, LParen, [], s5);
    WalkEat(s6, RParen, [], end);
  }

  lemma {:induction false} LambdaSpelled(e: Node, fn: string, known: set<string>, st: PState, end: PState)
    requires e.Lambda? && NamesOnly(known) && Canonical(e, fn, known)
    requires Walk(st, Spelling(e)) == Some(end)
    ensures Factor(st, fn, known) == Done(e, end)
    decreases Size(e), 1
  {
    var s2, s3, s5, s6 := WalkLambda(st, ParamSpelling(e.params), Spelling(e.body), end);
    ParamsSpelled([], e.params, s2, s3);
    assert [] + e.params == e.params;
    ExprSpelled(e.body, "", known, s5, s6);
    assert LambdaExpr(st, known) == Done(e, end);
  }

  /** Walking `name ( A T )`. */
  lemma WalkCall(st: PState, n: Token, A: seq<Token>, T: seq<Token>, end: PState)
    returns (s2: PState, s3: PState, s4: PState)
    requires Walk(st, [n, LParen] + (A + T) + [RParen]) == Some(end)
    ensures st.tok == Some(n) && Eat(st, n.Type()).Done?
    ensures Eat(st, n.Type()).rest.tok == Some(LParen)
    ensures Eat(Eat(st, n.Type()).rest, Punctuation) == Done(LParen, s2)
    ensures Walk(s2, A) == Some(s3) && Walk(s3, T) == Some(s4)
    ensures s4.tok == Some(RParen) && Eat(s4, Punctuation) == Done(RParen, end)
  {
    var head := [n, LParen];
    WalkSplit(st, head + (A + T), [RParen], end);
    s4 := Walk(st, head + (A + T)).value;
    WalkSplit(st, head, A + T, s4);
    s2 := Walk(st, head).value;
    WalkSplit(s2, A, T, s4);
    s3 := Walk(s2, A).value;
    assert head == [n] + [LParen] && [LParen] == [LParen] + [] && [RParen] == [RParen] + [];
    WalkEat(st, n, [LParen], s2);
    WalkEat(Eat(st, n.Type()).rest, LParen, [], s2);
    WalkEat(s4, RParen, [], end);
  }

  /** What follows the spelling of an argument: `,` if more arguments follow. */
  lemma TailFirst(st: PState, args: seq<Node>, end: PState)
    requires Walk(st, TailSpelling(args)) == Some(end)
    ensures args == [] ==> st == end
    ensures args != [] ==> st.tok == Some(Comma)
  {
    if args != [] {
      WalkSplit(st, [Comma] + Spelling(args[0]), TailSpelling(args[1..]), end);
      WalkNext(st, Comma, Spelling(args[0]), Walk(st, [Comma] + Spelling(args[0])).value);
    }
  }

  lemma {:induction false} CallSpelled(e: Node, fn: string, known: set<string>, st: PState, end: PState)
    requires e.FuncCall? && NamesOnly(known) && Canonical(e, fn, known)
    requires Walk(st, Spelling(e)) == Some(end)
    ensures Factor(st, fn, known) == Done(e, end)
    decreases Size(e), 1
  {
    var args := e.args;
    assert ArgSpelling(args) == Spelling(args[0]) + TailSpelling(args[1..]);
    var s2, s3, s4 := WalkCall(st, Name(e.name), Spelling(args[0]), TailSpelling(args[1..]), end);
    TailFirst(s3, args[1..], s4);
    assert Size(args[0]) < Size(e);
    ExprSpelled(args[0], "", known, s2, s3);
    ArgTailSpelled([args[0]], args[1..], known, s3, s4);
    HeadTail(args);
    CallParse(e, fn, known, st, s2, s4, end);
  }

  lemma CallParse(e: Node, fn: string, known: set<string>, st: PState, s2: PState, s4: PState, end: PState)
    requires e.FuncCall? && |e.args| > 0 && IdentWord(e.name) && (e.name in known || e.name == fn)
    requires st.tok == Some(Name(e.name)) && Eat(st, TokenType.Identifier).Done?
    requires Eat(Eat(st, TokenType.Identifier).rest, Punctuation).Done?
    requires Eat(Eat(st, TokenType.Identifier).rest, Punctuation).rest == s2
    requires match Expr(s2, "", known)
      case Done(a, s3) => a == e.args[0] && ArgTail([a], s3, known) == Done(e.args, s4)
      case Fail(_) => false
    requires Eat(s4, Punctuation) == Done(RParen, end)
    ensures Factor(st, fn, known) == Done(e, end)
  {
    assert NamedCall(st, known) == Done(e, end);
  }

  lemma {:induction false} ArgTailSpelled(prefix: seq<Node>, args: seq<Node>, known: set<string>, st: PState, end: PState)
    requires NamesOnly(known) && CanonicalArgs(args, known)
    requires Walk(st, TailSpelling(args)) == Some(end) && end.tok == Some(RParen)
    ensures ArgTail(prefix, st, known) == Done(prefix + args, end)
    decreases SizeAll(args), 4
  {
    if args == [] {
      assert prefix + args == prefix;
    } else {
      var a := args[0];
      var s1, s2 := WalkTail(st, args, end);
      ArgsUnfold(args, known);
      assert Closing(s2.tok) && !(a.FuncCall? && Is(s2.tok, Punctuation, ","));
      ExprSpelled(a, "", known, s1, s2);
      ArgTailSpelled(prefix + [a], args[1..], known, s2, end);
      ConsAppend(prefix, args);
      ArgTailStep(prefix, a, prefix + args, st, s1, s2, end, known);
    }
  }

  lemma ConsAppend<T>(prefix: seq<T>, args: seq<T>)
    requires args != []
    ensures prefix + [args[0]] + args[1..] == prefix + args
  {
    assert [args[0]] + args[1..] == args;
  }

  lemma ArgsUnfold(args: seq<Node>, known: set<string>)
    requires args != [] && CanonicalArgs(args, known)
    ensures ExprCanonical(args[0], "", known) && CanonicalArgs(args[1..], known)
    ensures |args| > 1 ==> !args[0].FuncCall?
    ensures Size(args[0]) <= SizeAll(args) && SizeAll(args[1..]) < SizeAll(args)
  {
  }

  /** Walking `, a T`. */
  lemma WalkTail(st: PState, args: seq<Node>, end: PState) returns (s1: PState, s2: PState)
    requires args != [] && Walk(st, TailSpelling(args)) == Some(end)
    ensures st.tok == Some(Comma) && Eat(st, Punctuation) == Done(Comma, s1)
    ensures Walk(s1, Spelling(args[0])) == Some(s2)
    ensures args[1..] == [] ==> s2 == end
    ensures args[1..] != [] ==> s2.tok == Some(Comma)
    ensures Walk(s2, TailSpelling(args[1..])) == Some(end)
  {
    AppendAssoc([Comma], Spelling(args[0]), TailSpelling(args[1..]));
    WalkEat(st, Comma, Spelling(args[0]) + TailSpelling(args[1..]), end);
    s1 := Eat(st, Punctuation).rest;
    WalkSplit(s1, Spelling(args[0]), TailSpelling(args[1..]), end);
    s2 := Walk(s1, Spelling(args[0])).value;
    TailFirst(s2, args[1..], end);
  }

  lemma ArgTailStep(prefix: seq<Node>, a: Node, all: seq<Node>, st: PState, s1: PState, s2: PState, end: PState, known: set<string>)
    requires st.tok == Some(Comma) && Eat(st, Punctuation) == Done(Comma, s1)
    requires Expr(s1, "", known) == Done(a, s2)
    requires ArgTail(prefix + [a], s2, known) == Done(all, end)
    ensures ArgTail(prefix, st, known) == Done(all, end)
  {
  }
  lemma LexableAppend(a: seq<Token>, b: seq<Token>)
    requires AllLexable(a) && AllLexable(b)
    ensures AllLexable(a + b)
  {
  }

  lemma {:induction false} ParamsLexable(ps: seq<string>)
    requires forall i :: 0 <= i < |ps| ==> IdentWord(ps[i])
    ensures AllLexable(ParamSpelling(ps))
    decreases |ps|
  {
    if ps != [] {
      ParamsLexable(ps[1..]);
      LexableAppend([Name(ps[0])] + (if |ps| > 1 then [Comma] else []), ParamSpelling(ps[1..]));
    }
  }

  /** Every token of a canonical spelling is one the lexer can produce. */
  lemma {:induction false} SpellingLexable(e: Node, fn: string, known: set<string>)
    requires Canonical(e, fn, known)
    ensures AllLexable(Spelling(e))
    decreases Size(e), 1
  {
    match e
    case Num(_) =>
    case Bool(_) =>
    case Var(_) =>
    case BinOp(l, op, r) =>
      SpellingLexable(l, fn, known);
      SpellingLexable(r, fn, known);
      LexableAppend([LParen] + Spelling(l), [OpToken(op)]);
      LexableAppend([LParen] + Spelling(l) + [OpToken(op)], Spelling(r));
      LexableAppend([LParen] + Spelling(l) + [OpToken(op)] + Spelling(r), [RParen]);
    case UnaryOp(x) =>
      SpellingLexable(x, fn, known);
      LexableAppend([Bang], Spelling(x));
    case Lambda(ps, body) =>
      ParamsLexable(ps);
      ExprSpellingLexable(body, "", known);
      LexableAppend([LambdaWord, LParen], ParamSpelling(ps));
      LexableAppend([LambdaWord, LParen] + ParamSpelling(ps), [RParen, LParen]);
      LexableAppend([LambdaWord, LParen] + ParamSpelling(ps) + [RParen, LParen], Spelling(body));
      LexableAppend([LambdaWord, LParen] + ParamSpelling(ps) + [RParen, LParen] + Spelling(body), [RParen]);
    case FuncCall(name, args) =>
      ArgsUnfold(args, known);
      ExprSpellingLexable(args[0], "", known);
      TailLexable(args[1..], known);
      LexableAppend(Spelling(args[0]), TailSpelling(args[1..]));
      LexableAppend([Name(name), LParen], ArgSpelling(args));
      LexableAppend([Name(name), LParen] + ArgSpelling(args), [RParen]);
    case OrSeq(l, r) =>
      SpellingLexable(l, fn, known);
      SpellingLexable(r, fn, known);
      LexableAppend([LParen] + Spelling(l), [OrWord]);
      LexableAppend([LParen] + Spelling(l) + [OrWord], Spelling(r));
      LexableAppend([LParen] + Spelling(l) + [OrWord] + Spelling(r), [RParen]);
  }

  lemma {:induction false} ExprSpellingLexable(e: Node, fn: string, known: set<string>)
    requires ExprCanonical(e, fn, known)
    ensures AllLexable(Spelling(e))
    decreases Size(e), 3
  {
    if Canonical(e, fn, known) {
      SpellingLexable(e, fn, known);
    } else {
      SpellingLexable(e.left, fn, known);
      SpellingLexable(e.right, fn, known);
      LexableAppend(Spelling(e.left), [Comma]);
      LexableAppend(Spelling(e.left) + [Comma], Spelling(e.right));
    }
  }

  lemma {:induction false} TailLexable(args: seq<Node>, known: set<string>)
    requires CanonicalArgs(args, known)
    ensures AllLexable(TailSpelling(args))
    decreases SizeAll(args), 4
  {
    if args != [] {
      ArgsUnfold(args, known);
      ExprSpellingLexable(args[0], "", known);
      TailLexable(args[1..], known);
      LexableAppend([Comma], Spelling(args[0]));
      LexableAppend([Comma] + Spelling(args[0]), TailSpelling(args[1..]));
    }
  }

  /** Lexing the rendering of a lexable token list step by step reads exactly
      those tokens and ends with no token left. */
  lemma {:induction false} WalkRendered(text: string, pos: nat, ts: seq<Token>)
    requires LexedAt(text, pos, ts)
    ensures Lex(text, pos).Ok? && Walk(Lex(text, pos).value, ts) == Some(PState(text, |text|, None))
    decreases |ts|
  {
    if ts == [] {
      LexAtEnd(text, pos);
    } else {
      var q := LexedHead(text, pos, ts);
      WalkRendered(text, q + 1, ts[1..]);
      WalkSpaced(text, pos, q, ts);
    }
  }

  /** Nothing left to read: no token, the cursor at the end. */
  lemma LexAtEnd(text: string, pos: nat)
    requires pos == |text|
    ensures Lex(text, pos) == Ok(PState(text, |text|, None))
  {
    EndOfInput(text, pos);
  }

  /** Reading the first token, then the space after it, then the rest. */
  lemma WalkSpaced(text: string, pos: nat, q: nat, ts: seq<Token>)
    requires ts != [] && NextToken(text, pos) == Produced(ts[0], q)
    requires q < |text| && text[q] == ' ' && Lex(text, q + 1).Ok?
    ensures Lex(text, pos).Ok? && Walk(Lex(text, pos).value, ts) == Walk(Lex(text, q + 1).value, ts[1..])
  {
    SpacesSkipped(text, q, q + 1);
    assert Lex(text, q) == Lex(text, q + 1);
    assert CharAt(text, q) == Some(' ');
  }

  /** The text the lexer reads for the token list `ts`, and the state the
      parser starts in. */
  lemma StartRendered(ts: seq<Token>) returns (st: PState)
    requires AllLexable(ts)
    ensures Start(RenderAll(ts)) == Ok(st)
    ensures Walk(st, ts) == Some(PState(RenderAll(ts), |RenderAll(ts)|, None))
  {
    var text := RenderAll(ts);
    LexedRendering(ts);
    WalkRendered(text, 0, ts);
    st := Start(text).value;
  }

  /** `parse` keeps the statements in source order: the statements read so
      far come first, and whether it fails does not depend on them. */
  lemma {:induction false} ParseLoopPrefix(acc: seq<Stmt>, st: PState, known: set<string>)
    ensures ParseLoop([], st, known).Ok? ==> ParseLoop(acc, st, known) == Ok(acc + ParseLoop([], st, known).value)
    ensures ParseLoop([], st, known).Err? ==> ParseLoop(acc, st, known) == ParseLoop([], st, known)
    decreases Measure(st), 2
  {
    if st.tok.None? {
      AppendEmpty(acc);
    } else {
      match Statement(st, known)
      case Fail(_) =>
      case Done(s, s1) =>
        AppendEmpty([s]);
        if Is(s1.tok, Punctuation, ";") {
          if Eat(s1, Punctuation).Done? {
            ParseLoopShift(acc, s, st, Eat(s1, Punctuation).rest, known);
          }
        } else {
          ParseLoopShift(acc, s, st, s1, known);
        }
    }
  }

  lemma ParseLoopShift(acc: seq<Stmt>, s: Stmt, st: PState, next: PState, known: set<string>)
    requires Measure(next) < Measure(st)
    decreases Measure(st), 1
    ensures ParseLoop([s], next, known).Ok? ==> ParseLoop(acc + [s], next, known) == Ok(acc + ParseLoop([s], next, known).value)
    ensures ParseLoop([s], next, known).Err? ==> ParseLoop(acc + [s], next, known) == ParseLoop([s], next, known)
  {
    ParseLoopPrefix(acc + [s], next, known);
    ParseLoopPrefix([s], next, known);
    var r := ParseLoop([], next, known);
    if r.Ok? {
      var tail := r.value;
      assert ParseLoop([s], next, known) == Ok([s] + tail);
      assert ParseLoop(acc + [s], next, known) == Ok((acc + [s]) + tail);
      assert (acc + [s]) + tail == acc + ([s] + tail);
    }
  }

  /** A statement whose tokens are read to the end is the whole program. */
  lemma LastStatement(s: Stmt, st: PState, end: PState, known: set<string>)
    requires Statement(st, known) == Done(s, end) && end.tok.None?
    ensures ParseLoop([], st, known) == Ok([s])
  {
    assert [] + [s] == [s];
  }

  /** Round trip for an expression statement: the parser reads the rendering
      of a canonical expression that starts with a number, a boolean, `(` or
      `!` back as exactly that one statement. (A statement that starts with
      an identifier or `lambd` goes through `function_call` or `lambda_expr`
      instead.) */
  lemma ParseRendered(e: Node, known: set<string>)
    requires NamesOnly(known) && Canonical(e, "", known)
    requires e.Num? || e.Bool? || e.BinOp? || e.UnaryOp? || e.OrSeq?
    ensures Start(RenderAll(Spelling(e))).Ok?
    ensures ParseLoop([], Start(RenderAll(Spelling(e))).value, known) == Ok([ExprStmt(e)])
  {
    SpellingLexable(e, "", known);
    var st := StartRendered(Spelling(e));
    var text := RenderAll(Spelling(e));
    var end := PState(text, |text|, None);
    ExprSpelled(e, "", known, st, end);
    ExpressionFirst(e);
    assert st.tok == Some(Spelling(e)[0]);
    ExpressionStatement(e, st, end, known);
    LastStatement(ExprStmt(e), st, end, known);
  }

  /** Such an expression starts with a number, a boolean, `(` or `!`. */
  lemma ExpressionFirst(e: Node)
    requires e.Num? || e.Bool? || e.BinOp? || e.UnaryOp? || e.OrSeq?
    ensures Spelling(e) != []
    ensures var t := Spelling(e)[0]; t.NumberToken? || t.BooleanToken? || t == LParen || t == Bang
  {
  }

  /** `statement` on a token that opens neither a definition, a lambda nor a
      call is `expr`. */
  lemma ExpressionStatement(e: Node, st: PState, end: PState, known: set<string>)
    requires st.tok.Some? && st.tok.value.Type() != TokenType.Identifier
    requires st.tok.value != TextToken(Keyword, "Defun") && st.tok.value != TextToken(Keyword, "lambd")
    requires Expr(st, "", known) == Done(e, end)
    ensures Statement(st, known) == Done(ExprStmt(e), end)
  {
  }

  /** Calls as `function_call` reads them, at the start of a statement: the
      name need not be defined yet, the argument list may be empty, and each
      argument is itself such a call or a canonical expression that does not
      start with a name (a name there starts a call). No `,` pairs two
      arguments here. */
  predicate StmtCall(e: Node, known: set<string>)
    decreases Size(e), 1
  {
    e.FuncCall? && IdentWord(e.name) && StmtCallArgs(e.args, known)
  }

  predicate StmtCallArgs(args: seq<Node>, known: set<string>)
    decreases SizeAll(args), 2
  {
    args == [] ||
    ((if args[0].FuncCall? then StmtCall(args[0], known) else Canonical(args[0], "", known) && !args[0].Var?)
     && StmtCallArgs(args[1..], known))
  }

  lemma StmtArgsUnfold(args: seq<Node>, known: set<string>)
    requires args != [] && StmtCallArgs(args, known)
    ensures args[0].FuncCall? ==> StmtCall(args[0], known)
    ensures !args[0].FuncCall? ==> Canonical(args[0], "", known) && !args[0].Var?
    ensures StmtCallArgs(args[1..], known)
    ensures Size(args[0]) <= SizeAll(args) && SizeAll(args[1..]) < SizeAll(args)
  {
  }

  /** The first token of such an argument: a name for a call, and otherwise
      neither a name nor `)`. */
  lemma StmtArgFirst(a: Node, known: set<string>)
    requires a.FuncCall? || (Canonical(a, "", known) && !a.Var?)
    ensures Spelling(a) != [] && Spelling(a)[0] != RParen
    ensures a.FuncCall? ==> Spelling(a)[0] == Name(a.name)
    ensures !a.FuncCall? ==> Spelling(a)[0].Type() != TokenType.Identifier
  {
  }

  /** `function_call` reads the spelling of such a call back as that call. */
  lemma {:induction false} FunctionCallSpelled(e: Node, known: set<string>, st: PState, end: PState)
    requires NamesOnly(known) && StmtCall(e, known)
    requires Walk(st, Spelling(e)) == Some(end)
    ensures FunctionCall(st, known) == Done(e, end)
    decreases Size(e), 1
  {
    var args := e.args;
    if args == [] {
      assert ArgSpelling(args) == [] + [];
      var s2, s3, s4 := WalkCall(st, Name(e.name), [], [], end);
      EmptyCallParse(e, known, st, s2, end);
    } else {
      assert ArgSpelling(args) == Spelling(args[0]) + TailSpelling(args[1..]);
      var s2, s3, s4 := WalkCall(st, Name(e.name), Spelling(args[0]), TailSpelling(args[1..]), end);
      TailFirst(s3, args[1..], s4);
      StmtArgsUnfold(args, known);
      StmtArgFirst(args[0], known);
      WalkFirst(s2, Spelling(args[0]), s3);
      StmtArgSpelled(args[0], known, s2, s3);
      StmtArgTailSpelled([args[0]], args[1..], known, s3, s4);
      HeadTail(args);
      StmtCallParse(e, known, st, Eat(st, TokenType.Identifier).rest, s2, s3, s4, end);
    }
  }

  /** A walk over a non-empty spelling starts at its first token. */
  lemma WalkFirst(st: PState, ts: seq<Token>, end: PState)
    requires ts != [] && Walk(st, ts) == Some(end)
    ensures st.tok == Some(ts[0])
  {
  }

  lemma EmptyCallParse(e: Node, known: set<string>, st: PState, s2: PState, end: PState)
    requires e.FuncCall? && e.args == []
    requires st.tok == Some(Name(e.name)) && Eat(st, TokenType.Identifier).Done?
    requires Eat(Eat(st, TokenType.Identifier).rest, Punctuation) == Done(LParen, s2)
    requires s2.tok == Some(RParen) && Eat(s2, Punctuation) == Done(RParen, end)
    ensures FunctionCall(st, known) == Done(e, end)
  {
  }

  lemma StmtCallParse(e: Node, known: set<string>, st: PState, s1: PState, s2: PState, s3: PState, s4: PState, end: PState)
    requires e.FuncCall? && e.args != []
    requires Eat(st, TokenType.Identifier) == Done(Name(e.name), s1)
    requires Eat(s1, Punctuation) == Done(LParen, s2)
    requires s2.tok.Some? && s2.tok != Some(RParen)
    requires StmtArg(s2, known) == Done(e.args[0], s3)
    requires StmtArgTail([e.args[0]], s3, known) == Done(e.args, s4)
    requires Eat(s4, Punctuation) == Done(RParen, end)
    ensures FunctionCall(st, known) == Done(e, end)
  {
    assert !(s2.tok.value.Type() == Punctuation && s2.tok.value.text == ")");
  }

  /** One argument of a statement-level call, followed by `,` or `)`. */
  lemma {:induction false} StmtArgSpelled(a: Node, known: set<string>, st: PState, end: PState)
    requires NamesOnly(known)
    requires if a.FuncCall? then StmtCall(a, known) else Canonical(a, "", known) && !a.Var?
    requires Walk(st, Spelling(a)) == Some(end) && Closing(end.tok)
    ensures StmtArg(st, known) == Done(a, end)
    decreases Size(a), 2
  {
    StmtArgFirst(a, known);
    WalkFirst(st, Spelling(a), end);
    if a.FuncCall? {
      FunctionCallSpelled(a, known, st, end);
    } else {
      ExprSpelled(a, "", known, st, end);
    }
  }

  /** The `,` loop of `function_call` reads the spelled remaining arguments
      back in order. */
  lemma {:induction false} StmtArgTailSpelled(prefix: seq<Node>, args: seq<Node>, known: set<string>, st: PState, end: PState)
    requires NamesOnly(known) && StmtCallArgs(args, known)
    requires Walk(st, TailSpelling(args)) == Some(end) && end.tok == Some(RParen)
    ensures StmtArgTail(prefix, st, known) == Done(prefix + args, end)
    decreases SizeAll(args), 3
  {
    if args == [] {
      assert prefix + args == prefix;
    } else {
      var a := args[0];
      var s1, s2 := WalkTail(st, args, end);
      StmtArgsUnfold(args, known);
      StmtArgSpelled(a, known, s1, s2);
      StmtArgTailSpelled(prefix + [a], args[1..], known, s2, end);
      ConsAppend(prefix, args);
      StmtArgTailStep(prefix, a, prefix + args, st, s1, s2, end, known);
    }
  }

  lemma StmtArgTailStep(prefix: seq<Node>, a: Node, all: seq<Node>, st: PState, s1: PState, s2: PState, end: PState, known: set<string>)
    requires st.tok == Some(Comma) && Eat(st, Punctuation) == Done(Comma, s1)
    requires StmtArg(s1, known) == Done(a, s2)
    requires StmtArgTail(prefix + [a], s2, known) == Done(all, end)
    ensures StmtArgTail(prefix, st, known) == Done(all, end)
  {
  }

  /** Every token of such a call's spelling is one the lexer can produce. */
  lemma {:induction false} StmtCallLexable(e: Node, known: set<string>)
    requires StmtCall(e, known)
    ensures AllLexable(Spelling(e))
    decreases Size(e), 1
  {
    StmtTailLexable(e.args, known, true);
    LexableAppend([Name(e.name), LParen], ArgSpelling(e.args));
    LexableAppend([Name(e.name), LParen] + ArgSpelling(e.args), [RParen]);
  }

  /** The arguments' spelling, with (`first`) or without their first `,`. */
  lemma {:induction false} StmtTailLexable(args: seq<Node>, known: set<string>, first: bool)
    requires StmtCallArgs(args, known)
    ensures first ==> AllLexable(ArgSpelling(args))
    ensures AllLexable(TailSpelling(args))
    decreases SizeAll(args), 2
  {
    if args != [] {
      StmtArgsUnfold(args, known);
      if args[0].FuncCall? {
        StmtCallLexable(args[0], known);
      } else {
        SpellingLexable(args[0], "", known);
      }
      StmtTailLexable(args[1..], known, false);
      LexableAppend(Spelling(args[0]), TailSpelling(args[1..]));
      LexableAppend([Comma], Spelling(args[0]));
      LexableAppend([Comma] + Spelling(args[0]), TailSpelling(args[1..]));
    }
  }

  /** Round trip for a call statement: the parser reads the rendering of
      such a call back as exactly that one statement. */
  lemma CallRendered(e: Node, known: set<string>)
    requires NamesOnly(known) && StmtCall(e, known)
    ensures Start(RenderAll(Spelling(e))).Ok?
    ensures ParseLoop([], Start(RenderAll(Spelling(e))).value, known) == Ok([ExprStmt(e)])
  {
    StmtCallLexable(e, known);
    var st := StartRendered(Spelling(e));
    var text := RenderAll(Spelling(e));
    var end := PState(text, |text|, None);
    FunctionCallSpelled(e, known, st, end);
    StmtArgFirst(e, known);
    WalkFirst(st, Spelling(e), end);
    assert Statement(st, known) == Done(ExprStmt(e), end);
    LastStatement(ExprStmt(e), st, end, known);
  }

  /** `Add(Add(2,2),2)` inside an expression: the inner call and `2` are
      paired, so the outer call has one argument. */
  lemma NestedAddRead(known: set<string>, st: PState, end: PState)
    requires NamesOnly(known) && "Add" in known
    requires Walk(st, Spelling(FuncCall("Add", [FuncOp(FuncCall("Add", [Num(2), Num(2)]), Num(2))]))) == Some(end)
    ensures Factor(st, "", known) == Done(FuncCall("Add", [FuncOp(FuncCall("Add", [Num(2), Num(2)]), Num(2))]), end)
  {
    var inner := FuncCall("Add", [Num(2), Num(2)]);
    assert IdentWord("Add");
    assert [Num(2), Num(2)][1..] == [Num(2)] && [Num(2)][1..] == [];
    assert CanonicalArgs([Num(2)], known);
    assert CanonicalArgs([Num(2), Num(2)], known);
    assert Canonical(inner, "", known);
    var pair := FuncOp(inner, Num(2));
    assert ExprCanonical(pair, "", known);
    assert [pair][1..] == [];
    assert CanonicalArgs([pair], known);
    CallSpelled(FuncCall("Add", [pair]), "", known, st, end);
  }

  /** The same text as a statement: `function_call` does not pair, so the
      outer call has two arguments. */
  lemma NestedAddStatement(known: set<string>)
    requires NamesOnly(known)
    ensures var text := RenderAll(Spelling(FuncCall("Add", [FuncCall("Add", [Num(2), Num(2)]), Num(2)])));
      Start(text).Ok? &&
      ParseLoop([], Start(text).value, known) == Ok([ExprStmt(FuncCall("Add", [FuncCall("Add", [Num(2), Num(2)]), Num(2)]))])
  {
    var inner := FuncCall("Add", [Num(2), Num(2)]);
    assert StmtCallArgs([Num(2)], known);
    assert StmtCall(inner, known);
    CallRendered(FuncCall("Add", [inner, Num(2)]), known);
  }

  /** The tokens of `Defun ( name , params ) body`. */
  function DefunSpelling(name: string, ps: seq<string>, body: Node): seq<Token> {
    [TextToken(Keyword, "Defun"), LParen, Name(name), Comma] + ParamSpelling(ps) + [RParen] + Spelling(body)
  }

  /** Walking `Defun ( name , P ) B`. */
  lemma WalkDefun(st: PState, name: string, P: seq<Token>, B: seq<Token>, end: PState)
    returns (s4: PState, s5: PState, s6: PState)
    requires Walk(st, [TextToken(Keyword, "Defun"), LParen, Name(name), Comma] + P + [RParen] + B) == Some(end)
    ensures st.tok == Some(TextToken(Keyword, "Defun"))
    ensures var s1 := Eat(st, Keyword).rest;
      && Eat(st, Keyword).Done? && s1.tok == Some(LParen) && Eat(s1, Punctuation).Done?
      && var s2 := Eat(s1, Punctuation).rest;
      && s2.tok == Some(Name(name)) && Eat(s2, TokenType.Identifier).Done?
      && var s3 := Eat(s2, TokenType.Identifier).rest;
      && s3.tok == Some(Comma) && Eat(s3, Punctuation) == Done(Comma, s4)
    ensures Walk(s4, P) == Some(s5)
    ensures s5.tok == Some(RParen) && Eat(s5, Punctuation) == Done(RParen, s6)
    ensures Walk(s6, B) == Some(end)
  {
    var head := [TextToken(Keyword, "Defun"), LParen, Name(name), Comma];
    WalkSplit(st, head + P + [RParen], B, end);
    s6 := Walk(st, head + P + [RParen]).value;
    WalkSplit(st, head + P, [RParen], s6);
    s5 := Walk(st, head + P).value;
    WalkSplit(st, head, P, s5);
    s4 := Walk(st, head).value;
    assert head == [TextToken(Keyword, "Defun")] + ([LParen] + ([Name(name)] + ([Comma] + [])));
    assert [RParen] == [RParen] + [];
    WalkEat(st, TextToken(Keyword, "Defun"), [LParen, Name(name), Comma], s4);
    var s1 := Eat(st, Keyword).rest;
    WalkEat(s1, LParen, [Name(name), Comma], s4);
    var s2 := Eat(s1, Punctuation).rest;
    WalkEat(s2, Name(name), [Comma], s4);
    var s3 := Eat(s2, TokenType.Identifier).rest;
    WalkEat(s3, Comma, [], s4);
    WalkEat(s5, RParen, [], s6);
  }

  /** Round trip for a definition: the parser reads the rendering of
      `Defun ( name , params ) body` back as that one definition, the body
      parsed with the new function's name (so a call to it inside the body
      is a call, not a variable). */
  lemma DefunRendered(name: string, ps: seq<string>, body: Node, known: set<string>)
    requires NamesOnly(known) && IdentWord(name)
    requires forall i :: 0 <= i < |ps| ==> IdentWord(ps[i])
    requires ExprCanonical(body, name, known)
    ensures Start(RenderAll(DefunSpelling(name, ps, body))).Ok?
    ensures ParseLoop([], Start(RenderAll(DefunSpelling(name, ps, body))).value, known)
      == Ok([FuncDef(name, ps, body)])
  {
    ParamsLexable(ps);
    ExprSpellingLexable(body, name, known);
    var head := [TextToken(Keyword, "Defun"), LParen, Name(name), Comma];
    LexableAppend(head, ParamSpelling(ps));
    LexableAppend(head + ParamSpelling(ps), [RParen]);
    LexableAppend(head + ParamSpelling(ps) + [RParen], Spelling(body));
    var ts := DefunSpelling(name, ps, body);
    var st := StartRendered(ts);
    var text := RenderAll(ts);
    var end := PState(text, |text|, None);
    var s4, s5, s6 := WalkDefun(st, name, ParamSpelling(ps), Spelling(body), end);
    ParamsSpelled([], ps, s4, s5);
    assert [] + ps == ps;
    ExprSpelled(body, name, known, s6, end);
    assert FunctionDefinition(st, known) == Done(FuncDef(name, ps, body), end);
    LastStatement(FuncDef(name, ps, body), st, end, known);
  }

  /** `(-N)` written without a space after `(`: `factor` reads it as the
      number -N. (The spelling lemmas above never produce this rule, which
      needs `-` right after the bracket.) */
  lemma NegativeLiteralRead(st: PState, n: nat, fn: string, known: set<string>)
    requires NamesOnly(known) && st.tok == Some(LParen)
    requires var p, d := st.pos, DecimalDigits(n);
      && p + 1 + |d| < |st.text|
      && st.text[p] == '-' && st.text[p + 1..p + 1 + |d|] == d && st.text[p + 1 + |d|] == ')'
    requires Lex(st.text, st.pos + 1 + |DecimalDigits(n)| + 1).Ok?
    ensures Factor(st, fn, known) == Done(Num(-(n as int)), Lex(st.text, st.pos + 1 + |DecimalDigits(n)| + 1).value)
  {
    NegativeValue(st, n);
    FactorNegative(st, fn, known);
  }

  /** The `(-N)` rule on that text, apart from the dispatch in `factor`. */
  lemma NegativeValue(st: PState, n: nat)
    requires st.tok == Some(LParen)
    requires var p, d := st.pos, DecimalDigits(n);
      && p + 1 + |d| < |st.text|
      && st.text[p] == '-' && st.text[p + 1..p + 1 + |d|] == d && st.text[p + 1 + |d|] == ')'
    requires Lex(st.text, st.pos + 1 + |DecimalDigits(n)| + 1).Ok?
    ensures NegativeLiteral(st) == Done(Num(-(n as int)), Lex(st.text, st.pos + 1 + |DecimalDigits(n)| + 1).value)
  {
    var s1, s2, s3 := NegativeEaten(st, n);
    NegativeRule(st, s1, s2, s3, Lex(st.text, st.pos + 1 + |DecimalDigits(n)| + 1).value, n);
  }

  /** The four tokens of `(-N)`, eaten one after the other. */
  lemma NegativeEaten(st: PState, n: nat) returns (s1: PState, s2: PState, s3: PState)
    requires st.tok == Some(LParen)
    requires var p, d := st.pos, DecimalDigits(n);
      && p + 1 + |d| < |st.text|
      && st.text[p] == '-' && st.text[p + 1..p + 1 + |d|] == d && st.text[p + 1 + |d|] == ')'
    requires Lex(st.text, st.pos + 1 + |DecimalDigits(n)| + 1).Ok?
    ensures Eat(st, Punctuation) == Done(LParen, s1)
    ensures Eat(s1, Operator) == Done(TextToken(Operator, "-"), s2)
    ensures Eat(s2, Integer) == Done(NumberToken(n), s3)
    ensures Eat(s3, Punctuation) == Done(RParen, Lex(st.text, st.pos + 1 + |DecimalDigits(n)| + 1).value)
  {
    s1 := MinusEaten(st);
    s2 := NumeralEaten(s1, n);
    s3 := NumberEaten(s2, n);
    EatLexed(s3, Punctuation, Lex(st.text, s3.pos).value);
  }

  /** The `(` of `(-N)`, followed by `-`. */
  lemma MinusEaten(st: PState) returns (s1: PState)
    requires st.tok == Some(LParen) && st.pos < |st.text| && st.text[st.pos] == '-'
    ensures s1 == PState(st.text, st.pos + 1, Some(TextToken(Operator, "-")))
    ensures Eat(st, Punctuation) == Done(LParen, s1)
  {
    s1 := PState(st.text, st.pos + 1, Some(TextToken(Operator, "-")));
    SymbolLexed(st.text, st.pos, TextToken(Operator, "-"));
    EatLexed(st, Punctuation, s1);
  }

  /** The `-` of `(-N)`, followed by the numeral. */
  lemma NumeralEaten(s1: PState, n: nat) returns (s2: PState)
    requires s1.tok == Some(TextToken(Operator, "-"))
    requires var p, d := s1.pos, DecimalDigits(n);
      p + |d| < |s1.text| && s1.text[p..p + |d|] == d && s1.text[p + |d|] == ')'
    ensures s2 == PState(s1.text, s1.pos + |DecimalDigits(n)|, Some(NumberToken(n)))
    ensures Eat(s1, Operator) == Done(TextToken(Operator, "-"), s2)
  {
    s2 := PState(s1.text, s1.pos + |DecimalDigits(n)|, Some(NumberToken(n)));
    NumberLexed(s1.text, s1.pos, n);
    EatLexed(s1, Operator, s2);
  }

  /** The numeral of `(-N)`, followed by `)`. */
  lemma NumberEaten(s2: PState, n: nat) returns (s3: PState)
    requires s2.tok == Some(NumberToken(n)) && s2.pos < |s2.text| && s2.text[s2.pos] == ')'
    ensures s3 == PState(s2.text, s2.pos + 1, Some(RParen))
    ensures Eat(s2, Integer) == Done(NumberToken(n), s3)
  {
    s3 := PState(s2.text, s2.pos + 1, Some(RParen));
    SymbolLexed(s2.text, s2.pos, RParen);
    EatLexed(s2, Integer, s3);
  }

  /** `factor` hands `(` followed at once by `-` to the `(-N)` rule. */
  lemma FactorNegative(st: PState, fn: string, known: set<string>)
    requires NamesOnly(known) && st.tok == Some(LParen) && st.pos < |st.text| && st.text[st.pos] == '-'
    ensures Factor(st, fn, known) == NegativeLiteral(st)
  {
    assert CharAt(st.text, st.pos) == Some('-');
    assert !IdentWord("(");
  }

  /** The `(-N)` rule itself, once its four tokens have been eaten. */
  lemma NegativeRule(st: PState, s1: PState, s2: PState, s3: PState, s4: PState, n: nat)
    requires Eat(st, Punctuation) == Done(LParen, s1)
    requires Eat(s1, Operator) == Done(TextToken(Operator, "-"), s2)
    requires Eat(s2, Integer) == Done(NumberToken(n), s3)
    requires Eat(s3, Punctuation) == Done(RParen, s4)
    ensures NegativeLiteral(st) == Done(Num(-(n as int)), s4)
  {
  }

  /** Eating the current token moves to the state the lexer gives next. */
  lemma EatLexed(st: PState, ty: TokenType, next: PState)
    requires st.tok.Some? && st.tok.value.Type() == ty && Lex(st.text, st.pos) == Ok(next)
    ensures Eat(st, ty) == Done(st.tok.value, next)
  {
  }

  /** A one-character operator or punctuation token is lexed on its own. */
  lemma SymbolLexed(text: string, p: nat, t: Token)
    requires t == TextToken(Operator, "-") || t == RParen
    requires p < |text| && text[p] == t.text[0]
    ensures Lex(text, p) == Ok(PState(text, p + 1, Some(t)))
  {
    assert text[p..p + 1] == [text[p]] == t.text;
    LexSymbolRendered(text, p, t);
  }

  /** A numeral not followed by a digit is lexed as one integer token. */
  lemma NumberLexed(text: string, p: nat, n: nat)
    requires p + |DecimalDigits(n)| < |text|
    requires text[p..p + |DecimalDigits(n)|] == DecimalDigits(n) && !IsDigit(text[p + |DecimalDigits(n)|])
    ensures Lex(text, p) == Ok(PState(text, p + |DecimalDigits(n)|, Some(NumberToken(n))))
  {
    LexNumberRendered(text, p, n);
  }

  const Semicolon: Token := TextToken(Punctuation, ";")

  /** Statements as the round-trip lemmas write them: a definition with a
      canonical body, an expression statement that starts with a number, a
      boolean, `(` or `!`, or a statement-level call. */
  predicate Spellable(s: Stmt, known: set<string>) {
    match s
    case FuncDef(name, ps, body) =>
      IdentWord(name) && (forall i :: 0 <= i < |ps| ==> IdentWord(ps[i])) && ExprCanonical(body, name, known)
    case ExprStmt(e) =>
      StmtCall(e, known) || (Canonical(e, "", known) && (e.Num? || e.Bool? || e.BinOp? || e.UnaryOp? || e.OrSeq?))
  }

  predicate AllSpellable(ss: seq<Stmt>, known: set<string>)
    decreases |ss|
  {
    ss == [] || (Spellable(ss[0], known) && AllSpellable(ss[1..], known))
  }

  function StmtSpelling(s: Stmt): seq<Token> {
    match s
    case FuncDef(name, ps, body) => DefunSpelling(name, ps, body)
    case ExprStmt(e) => Spelling(e)
  }

  /** The spellings of `ss`, separated by `;`. */
  function Joined(ss: seq<Stmt>): seq<Token>
    decreases |ss|
  {
    if ss == [] then []
    else if |ss| == 1 then StmtSpelling(ss[0])
    else StmtSpelling(ss[0]) + [Semicolon] + Joined(ss[1..])
  }

  /** Every token of such a statement's spelling is one the lexer can produce. */
  lemma StmtSpellingLexable(s: Stmt, known: set<string>)
    requires Spellable(s, known)
    ensures AllLexable(StmtSpelling(s))
  {
    match s
    case FuncDef(name, ps, body) =>
      ParamsLexable(ps);
      ExprSpellingLexable(body, name, known);
      var head := [TextToken(Keyword, "Defun"), LParen, Name(name), Comma];
      LexableAppend(head, ParamSpelling(ps));
      LexableAppend(head + ParamSpelling(ps), [RParen]);
      LexableAppend(head + ParamSpelling(ps) + [RParen], Spelling(body));
    case ExprStmt(e) =>
      if StmtCall(e, known) {
        StmtCallLexable(e, known);
      } else {
        SpellingLexable(e, "", known);
      }
  }

  lemma {:induction false} JoinedLexable(ss: seq<Stmt>, known: set<string>)
    requires AllSpellable(ss, known)
    ensures AllLexable(Joined(ss))
    decreases |ss|
  {
    if ss != [] {
      StmtSpellingLexable(ss[0], known);
      if |ss| > 1 {
        JoinedLexable(ss[1..], known);
        LexableAppend(StmtSpelling(ss[0]), [Semicolon]);
        LexableAppend(StmtSpelling(ss[0]) + [Semicolon], Joined(ss[1..]));
      }
    }
  }

  /** `statement` reads such a statement back from its spelling when `;` or
      the end of input follows. */
  lemma StatementSpelled(s: Stmt, known: set<string>, st: PState, end: PState)
    requires NamesOnly(known) && Spellable(s, known)
    requires Walk(st, StmtSpelling(s)) == Some(end) && (end.tok.None? || end.tok == Some(Semicolon))
    ensures st.tok.Some?
    ensures Statement(st, known) == Done(s, end)
  {
    match s
    case FuncDef(name, ps, body) =>
      var s4, s5, s6 := WalkDefun(st, name, ParamSpelling(ps), Spelling(body), end);
      ParamsSpelled([], ps, s4, s5);
      assert [] + ps == ps;
      ExprSpelled(body, name, known, s6, end);
      assert FunctionDefinition(st, known) == Done(FuncDef(name, ps, body), end);
    case ExprStmt(e) =>
      if StmtCall(e, known) {
        FunctionCallSpelled(e, known, st, end);
        StmtArgFirst(e, known);
        WalkFirst(st, Spelling(e), end);
      } else {
        ExprSpelled(e, "", known, st, end);
        ExpressionFirst(e);
        WalkFirst(st, Spelling(e), end);
        ExpressionStatement(e, st, end, known);
      }
  }

  /** The `;` after a statement: `parse` eats it and goes on with the rest. */
  lemma SemicolonStep(acc: seq<Stmt>, s: Stmt, known: set<string>, st: PState, m: PState, m2: PState)
    requires st.tok.Some? && Statement(st, known) == Done(s, m)
    requires m.tok == Some(Semicolon) && Eat(m, Punctuation).Done? && Eat(m, Punctuation).rest == m2
    ensures ParseLoop(acc, st, known) == ParseLoop(acc + [s], m2, known)
  {
  }

  /** The last statement of such a line, with or without a final `;`. */
  lemma LastJoined(acc: seq<Stmt>, s: Stmt, tail: seq<Token>, known: set<string>, st: PState, end: PState)
    requires NamesOnly(known) && Spellable(s, known) && (tail == [] || tail == [Semicolon])
    requires Walk(st, StmtSpelling(s) + tail) == Some(end) && end.tok.None?
    ensures ParseLoop(acc, st, known) == Ok(acc + [s])
  {
    WalkSplit(st, StmtSpelling(s), tail, end);
    var m := Walk(st, StmtSpelling(s)).value;
    if tail == [] {
      assert m == end;
      StatementSpelled(s, known, st, m);
    } else {
      assert tail == [Semicolon] + [];
      WalkEat(m, Semicolon, [], end);
      StatementSpelled(s, known, st, m);
      SemicolonStep(acc, s, known, st, m, end);
    }
  }

  /** Walking the first statement of such a line and the `;` after it. */
  lemma JoinedHead(ss: seq<Stmt>, tail: seq<Token>, st: PState, end: PState) returns (m: PState, m2: PState)
    requires |ss| > 1 && Walk(st, Joined(ss) + tail) == Some(end)
    ensures Walk(st, StmtSpelling(ss[0])) == Some(m)
    ensures m.tok == Some(Semicolon) && Eat(m, Punctuation).Done? && Eat(m, Punctuation).rest == m2
    ensures Walk(m2, Joined(ss[1..]) + tail) == Some(end)
  {
    JoinedSplit(ss, tail);
    m, m2 := SemicolonWalk(st, StmtSpelling(ss[0]), Joined(ss[1..]) + tail, end);
  }

  /** A line of two or more statements: the first, `;`, then the others. */
  lemma JoinedSplit(ss: seq<Stmt>, tail: seq<Token>)
    requires |ss| > 1
    ensures Joined(ss) + tail == StmtSpelling(ss[0]) + ([Semicolon] + (Joined(ss[1..]) + tail))
  {
    assert Joined(ss) == StmtSpelling(ss[0]) + [Semicolon] + Joined(ss[1..]);
    Regroup(StmtSpelling(ss[0]), [Semicolon], Joined(ss[1..]), tail);
  }

  lemma Regroup<T>(a: seq<T>, b: seq<T>, c: seq<T>, d: seq<T>)
    ensures a + b + c + d == a + (b + (c + d))
  {
  }

  /** Walking `a`, then a `;`, then `rest`. */
  lemma SemicolonWalk(st: PState, a: seq<Token>, rest: seq<Token>, end: PState) returns (m: PState, m2: PState)
    requires Walk(st, a + ([Semicolon] + rest)) == Some(end)
    ensures Walk(st, a) == Some(m)
    ensures m.tok == Some(Semicolon) && Eat(m, Punctuation).Done? && Eat(m, Punctuation).rest == m2
    ensures Walk(m2, rest) == Some(end)
  {
    WalkSplit(st, a, [Semicolon] + rest, end);
    m := Walk(st, a).value;
    WalkEat(m, Semicolon, rest, end);
    m2 := Eat(m, Punctuation).rest;
  }

  /** `parse` reads statements separated by `;`, with or without a final
      `;`, back in order, after the statements already read. */
  lemma {:induction false} JoinedParse(acc: seq<Stmt>, ss: seq<Stmt>, tail: seq<Token>, ts: seq<Token>, known: set<string>, st: PState, end: PState)
    requires NamesOnly(known) && ss != [] && (tail == [] || tail == [Semicolon])
    requires AllSpellable(ss, known)
    requires ts == Joined(ss) + tail && Walk(st, ts) == Some(end) && end.tok.None?
    ensures ParseLoop(acc, st, known) == Ok(acc + ss)
    decreases |ss|
  {
    if |ss| == 1 {
      JoinedOne(acc, ss, tail, known, st, end);
    } else {
      var m2 := JoinedMore(acc, ss, tail, known, st, end);
      JoinedParse(acc + [ss[0]], ss[1..], tail, Joined(ss[1..]) + tail, known, m2, end);
      ParseLoopChain(acc, ss, known, st, m2);
    }
  }

  lemma ParseLoopChain(acc: seq<Stmt>, ss: seq<Stmt>, known: set<string>, st: PState, m2: PState)
    requires ss != []
    requires ParseLoop(acc, st, known) == ParseLoop(acc + [ss[0]], m2, known)
    requires ParseLoop(acc + [ss[0]], m2, known) == Ok(acc + [ss[0]] + ss[1..])
    ensures ParseLoop(acc, st, known) == Ok(acc + ss)
  {
    assert acc + [ss[0]] + ss[1..] == acc + ss;
  }

  lemma JoinedOne(acc: seq<Stmt>, ss: seq<Stmt>, tail: seq<Token>, known: set<string>, st: PState, end: PState)
    requires NamesOnly(known) && |ss| == 1 && (tail == [] || tail == [Semicolon])
    requires AllSpellable(ss, known)
    requires Walk(st, Joined(ss) + tail) == Some(end) && end.tok.None?
    ensures ParseLoop(acc, st, known) == Ok(acc + ss)
  {
    var s := ss[0];
    assert ss == [s] && Joined(ss) == StmtSpelling(s);
    LastJoined(acc, s, tail, known, st, end);
  }

  /** One statement and its `;`, with more statements to follow. */
  lemma JoinedMore(acc: seq<Stmt>, ss: seq<Stmt>, tail: seq<Token>, known: set<string>, st: PState, end: PState) returns (m2: PState)
    requires NamesOnly(known) && |ss| > 1
    requires AllSpellable(ss, known)
    requires Walk(st, Joined(ss) + tail) == Some(end)
    ensures AllSpellable(ss[1..], known)
    ensures ParseLoop(acc, st, known) == ParseLoop(acc + [ss[0]], m2, known)
    ensures Walk(m2, Joined(ss[1..]) + tail) == Some(end)
  {
    var m;
    m, m2 := JoinedHead(ss, tail, st, end);
    StatementSpelled(ss[0], known, st, m);
    SemicolonStep(acc, ss[0], known, st, m, m2);
  }



  /** A line of two or more statements, or one ending in `;`, holds a `;` token. */
  lemma JoinedSemicolon(ss: seq<Stmt>, tail: seq<Token>) returns (k: nat)
    requires ss != [] && (tail == [] || tail == [Semicolon]) && (|ss| >= 2 || tail == [Semicolon])
    ensures k < |Joined(ss) + tail| && (Joined(ss) + tail)[k] == Semicolon
  {
    if |ss| >= 2 {
      k := |StmtSpelling(ss[0])|;
      assert Joined(ss) == StmtSpelling(ss[0]) + [Semicolon] + Joined(ss[1..]);
    } else {
      k := |Joined(ss)|;
    }
  }

  /** Round trip for a line of statements: the rendering of statements
      separated by `;`, with or without a final `;`, parses as exactly those
      statements, in order. */
  lemma JoinedRendered(ss: seq<Stmt>, tail: seq<Token>, known: set<string>)
    requires NamesOnly(known) && ss != [] && (tail == [] || tail == [Semicolon])
    requires AllSpellable(ss, known)
    ensures Start(RenderAll(Joined(ss) + tail)).Ok?
    ensures ParseLoop([], Start(RenderAll(Joined(ss) + tail)).value, known) == Ok(ss)
  {
    JoinedLexable(ss, known);
    LexableAppend(Joined(ss), tail);
    var ts := Joined(ss) + tail;
    var st := StartRendered(ts);
    JoinedParse([], ss, tail, ts, known, st, PState(RenderAll(ts), |RenderAll(ts)|, None));
    assert [] + ss == ss;
  }
}
