/** What `get_next_token` promises (src/interpreterProj.py:245-385), proved
    about its specification `Lexing.NextToken`, and the round trip
    "lexing the rendering of a token list gives the list back". */
module LexerProperties {
  import opened Util
  import opened Tokens
  import opened Lexing

  lemma {:induction false} DigitRunAt(text: string, pos: nat, e: nat)
    requires pos <= e <= |text|
    requires forall i :: pos <= i < e ==> IsDigit(text[i])
    requires e == |text| || !IsDigit(text[e])
    ensures DigitRunEnd(text, pos) == e
    decreases e - pos
  {
    if pos < e {
      DigitRunAt(text, pos + 1, e);
    }
  }

  lemma {:induction false} WordRunAt(text: string, pos: nat, e: nat)
    requires pos <= e <= |text|
    requires forall i :: pos <= i < e ==> IsAlnum(text[i])
    requires e == |text| || !IsAlnum(text[e])
    ensures WordRunEnd(text, pos) == e
    decreases e - pos
  {
    if pos < e {
      WordRunAt(text, pos + 1, e);
    }
  }

  /** A maximal run of digits is one INTEGER token holding its decimal value,
      and the cursor stops at the first character after the run. */
  lemma NumberRun(text: string, pos: nat, e: nat)
    requires pos < e <= |text|
    requires forall i :: pos <= i < e ==> IsDigit(text[i])
    requires e == |text| || !IsDigit(text[e])
    ensures NextToken(text, pos) == Produced(NumberToken(DecimalValue(text[pos..e])), e)
  {
    DigitRunAt(text, pos, e);
  }

  /** A maximal alphanumeric run that starts with a letter is one token:
      KEYWORD for `Defun`/`lambd`, BOOLEAN for `True`/`False`, ORFUNC for `or`
      and IDENTIFIER otherwise. */
  lemma WordRun(text: string, pos: nat, e: nat)
    requires pos < e <= |text| && IsAlpha(text[pos])
    requires forall i :: pos <= i < e ==> IsAlnum(text[i])
    requires e == |text| || !IsAlnum(text[e])
    ensures NextToken(text, pos).Produced? && NextToken(text, pos).next == e
    ensures var t := NextToken(text, pos).tok;
      var w := text[pos..e];
      && (w in Keywords <==> t == TextToken(Keyword, w))
      && (w == "True" <==> t == BooleanToken(true))
      && (w == "False" <==> t == BooleanToken(false))
      && (w == "or" <==> t == TextToken(OrFunc, "or"))
      && (w !in Keywords && w != "True" && w != "False" && w != "or" <==> t == TextToken(TokenType.Identifier, w))
  {
    WordRunAt(text, pos, e);
  }

  /** `==`, `!=`, `>=`, `<=`, `&&` and `||` consume exactly two characters. */
  lemma TwoCharacterOperators(text: string, pos: nat)
    requires pos + 2 <= |text|
    requires text[pos..pos + 2] in {"==", "!=", ">=", "<=", "&&", "||"}
    ensures NextToken(text, pos).Produced? && NextToken(text, pos).next == pos + 2
    ensures NextToken(text, pos).tok.Type() ==
      (if text[pos..pos + 2] in {"&&", "||"} then LogicOperator else Comparator)
    ensures NextToken(text, pos).tok.text == text[pos..pos + 2]
  {
    assert text[pos..pos + 2] == [text[pos], text[pos + 1]];
  }

  /** A `!`, `<` or `>` not followed by `=` consumes one character. */
  lemma OneCharacterOperators(text: string, pos: nat)
    requires pos < |text| && text[pos] in {'!', '<', '>'}
    requires pos + 1 == |text| || text[pos + 1] != '='
    ensures NextToken(text, pos) ==
      Produced(TextToken(if text[pos] == '!' then Operator else Comparator, [text[pos]]), pos + 1)
  {
  }

  /** A `|`, `&` or `=` as the last character raises "Invalid character";
      followed by any character other than itself, the lexer is stuck. */
  lemma LoneOperatorCharacters(text: string, pos: nat)
    requires pos < |text| && text[pos] in {'|', '&', '='}
    ensures pos + 1 == |text| ==> NextToken(text, pos) == InvalidCharacter
    ensures pos + 1 < |text| && text[pos + 1] != text[pos] ==> NextToken(text, pos) == Stuck
  {
  }

  /** With nothing but white space left, `get_next_token` returns None. */
  lemma {:induction false} EndOfInput(text: string, pos: nat)
    requires pos <= |text|
    requires forall i :: pos <= i < |text| ==> IsSpace(text[i])
    ensures NextToken(text, pos) == AtEnd
  {
    SpacesSkipped(text, pos, |text|);
  }

  /** What may follow the rendering of `t` without becoming part of it. */
  predicate Separated(t: Token, text: string, q: nat) {
    q >= |text| ||
    match t
    case NumberToken(_) => !IsDigit(text[q])
    case BooleanToken(_) => !IsAlnum(text[q])
    case TextToken(k, s) =>
      if k in {Keyword, TokenType.Identifier, OrFunc} then !IsAlnum(text[q])
      else if s in {"!", "<", ">"} then text[q] != '='
      else true
  }

  /** The word tokens are classified back to themselves. */
  lemma ClassifyRendered(t: Token)
    requires Lexable(t) && t.Type() in {Keyword, Boolean, TokenType.Identifier, OrFunc}
    ensures IsWord(Render(t)) && Classify(Render(t)) == t
  {
  }

  lemma LexNumberRendered(text: string, pos: nat, n: nat)
    requires pos + |DecimalDigits(n)| <= |text|
    requires text[pos..pos + |DecimalDigits(n)|] == DecimalDigits(n)
    requires pos + |DecimalDigits(n)| == |text| || !IsDigit(text[pos + |DecimalDigits(n)|])
    ensures NextToken(text, pos) == Produced(NumberToken(n), pos + |DecimalDigits(n)|)
  {
    var r := DecimalDigits(n);
    var e := pos + |r|;
    assert forall i :: pos <= i < e ==> text[i] == r[i - pos];
    assert IsDigit(text[pos]);
    DigitRunAt(text, pos, e);
    DecimalRoundTrip(n);
  }

  lemma LexWordRendered(text: string, pos: nat, t: Token)
    requires Lexable(t) && t.Type() in {Keyword, Boolean, TokenType.Identifier, OrFunc}
    requires pos + |Render(t)| <= |text| && text[pos..pos + |Render(t)|] == Render(t)
    requires pos + |Render(t)| == |text| || !IsAlnum(text[pos + |Render(t)|])
    ensures NextToken(text, pos) == Produced(t, pos + |Render(t)|)
  {
    var r := Render(t);
    var e := pos + |r|;
    ClassifyRendered(t);
    assert forall i :: pos <= i < e ==> text[i] == r[i - pos];
    WordRunAt(text, pos, e);
    AlphaToken(text, pos);
  }

  /** A letter starts a word token. */
  lemma AlphaToken(text: string, pos: nat)
    requires pos < |text| && IsAlpha(text[pos])
    ensures NextToken(text, pos) == Produced(Classify(text[pos..WordRunEnd(text, pos)]), WordRunEnd(text, pos))
  {
    var c := text[pos];
    assert !IsSpace(c) && !IsDigit(c);
    assert c !in Punctuations && c !in ArithmeticOperators;
  }

  lemma LexSymbolRendered(text: string, pos: nat, t: Token)
    requires Lexable(t) && t.Type() in {Operator, Punctuation, Comparator, LogicOperator}
    requires pos + |Render(t)| <= |text| && text[pos..pos + |Render(t)|] == Render(t)
    requires Separated(t, text, pos + |Render(t)|)
    ensures NextToken(text, pos) == Produced(t, pos + |Render(t)|)
  {
    var r := Render(t);
    assert r == t.text;
    assert text[pos] == r[0];
    if |r| == 2 {
      assert text[pos + 1] == r[1];
      assert r == [r[0], r[1]];
    } else {
      assert r == [r[0]];
    }
  }

  /** Lexing the rendering of a lexable token gives that token back, with
      the cursor just after it. */
  lemma LexRendered(text: string, pos: nat, t: Token)
    requires Lexable(t)
    requires pos + |Render(t)| <= |text| && text[pos..pos + |Render(t)|] == Render(t)
    requires Separated(t, text, pos + |Render(t)|)
    ensures NextToken(text, pos) == Produced(t, pos + |Render(t)|)
  {
    match t
    case NumberToken(n) => LexNumberRendered(text, pos, n);
    case BooleanToken(_) => LexWordRendered(text, pos, t);
    case TextToken(k, _) =>
      if k in {Keyword, TokenType.Identifier, OrFunc} {
        LexWordRendered(text, pos, t);
      } else {
        LexSymbolRendered(text, pos, t);
      }
  }

  /** Tokens rendered with one space after each. */
  function RenderAll(ts: seq<Token>): string {
    if ts == [] then "" else Render(ts[0]) + " " + RenderAll(ts[1..])
  }

  /** A `;` token anywhere in the list shows up as `;` in its rendering. */
  lemma {:induction false} RenderedSemicolon(ts: seq<Token>, k: nat)
    requires k < |ts| && ts[k] == TextToken(Punctuation, ";")
    ensures HasInfix(RenderAll(ts), ";")
    decreases k
  {
    if k == 0 {
      assert RenderAll(ts)[0..1] == ";";
      HasInfixAt(RenderAll(ts), ";", 0);
    } else {
      RenderedSemicolon(ts[1..], k - 1);
      HasInfixAfter(Render(ts[0]) + " ", RenderAll(ts[1..]), ";");
    }
  }

  /** Every token of the list is one the lexer can produce. */
  predicate AllLexable(ts: seq<Token>) {
    forall i :: 0 <= i < |ts| ==> Lexable(ts[i])
  }

  lemma LexableTail(ts: seq<Token>)
    requires ts != [] && AllLexable(ts)
    ensures Lexable(ts[0]) && AllLexable(ts[1..])
  {
    assert forall i :: 0 <= i < |ts[1..]| ==> ts[1..][i] == ts[i + 1];
  }

  /** From `pos` on, `get_next_token` reads the tokens `ts` one at a time,
      each followed by a space, and then reaches the end of the text. */
  predicate LexedAt(text: string, pos: nat, ts: seq<Token>)
    decreases |ts|
  {
    if ts == [] then pos == |text|
    else
      var s := NextToken(text, pos);
      && s.Produced? && s.tok == ts[0] && s.next < |text| && text[s.next] == ' '
      && LexedAt(text, s.next + 1, ts[1..])
  }

  /** Where `get_next_token` reads `ts` token by token, the whole scan gives
      exactly `ts`. */
  lemma {:induction false} TokenizeRendered(text: string, pos: nat, ts: seq<Token>)
    requires LexedAt(text, pos, ts)
    ensures Tokenize(text, pos) == Tokens(ts)
    decreases |ts|
  {
    if ts == [] {
      EndOfInput(text, pos);
    } else {
      var q := LexedHead(text, pos, ts);
      TokenizeRendered(text, q + 1, ts[1..]);
      TokenizeSpaced(text, pos, q, ts);
    }
  }

  /** The first token read, the space after it, and the rest read after
      the space. */
  lemma LexedHead(text: string, pos: nat, ts: seq<Token>) returns (q: nat)
    requires ts != [] && LexedAt(text, pos, ts)
    ensures q < |text| && text[q] == ' ' && NextToken(text, pos) == Produced(ts[0], q)
    ensures LexedAt(text, q + 1, ts[1..])
  {
    q := NextToken(text, pos).next;
  }

  /** The rendering of a lexable token list is read token by token. */
  lemma LexedRendering(ts: seq<Token>)
    requires AllLexable(ts)
    ensures LexedAt(RenderAll(ts), 0, ts)
  {
    LexedAfter([], ts);
    assert [] + RenderAll(ts) == RenderAll(ts);
  }

  /** The same after any prefix `p`, from the end of `p`. */
  lemma {:induction false} LexedAfter(p: string, ts: seq<Token>)
    requires AllLexable(ts)
    ensures LexedAt(p + RenderAll(ts), |p|, ts)
    decreases |ts|
  {
    if ts == [] {
      assert p + RenderAll(ts) == p;
    } else {
      var p' := LexedAfterHead(p, ts);
      LexedAfter(p', ts[1..]);
    }
  }

  /** The first token and its space move from the rendering to the prefix. */
  lemma LexedAfterHead(p: string, ts: seq<Token>) returns (p': string)
    requires ts != [] && AllLexable(ts)
    ensures AllLexable(ts[1..]) && p' + RenderAll(ts[1..]) == p + RenderAll(ts)
    ensures LexedAt(p' + RenderAll(ts[1..]), |p'|, ts[1..]) ==> LexedAt(p + RenderAll(ts), |p|, ts)
  {
    var q;
    p', q := RenderingHead(p, ts);
    if LexedAt(p' + RenderAll(ts[1..]), |p'|, ts[1..]) {
      LexedCons(p + RenderAll(ts), |p|, q, ts);
    }
  }

  lemma RenderingHead(p: string, ts: seq<Token>) returns (p': string, q: nat)
    requires ts != [] && AllLexable(ts)
    ensures AllLexable(ts[1..]) && p' + RenderAll(ts[1..]) == p + RenderAll(ts) && |p'| == q + 1
    ensures var text := p + RenderAll(ts);
      q < |text| && text[q] == ' ' && NextToken(text, |p|) == Produced(ts[0], q)
  {
    p', q := SplitHead(p, ts);
    LexRendered(p + RenderAll(ts), |p|, ts[0]);
  }

  /** The rendering after `p`: the first token's text, a space, the rest. */
  lemma SplitHead(p: string, ts: seq<Token>) returns (p': string, q: nat)
    requires ts != [] && AllLexable(ts)
    ensures AllLexable(ts[1..]) && p' + RenderAll(ts[1..]) == p + RenderAll(ts) && |p'| == q + 1
    ensures var text := p + RenderAll(ts);
      && Lexable(ts[0]) && q == |p| + |Render(ts[0])| && q < |text| && text[q] == ' '
      && text[|p|..q] == Render(ts[0]) && Separated(ts[0], text, q)
  {
    var r := Render(ts[0]);
    var rest := RenderAll(ts[1..]);
    assert RenderAll(ts) == r + [' '] + rest;
    Pieces(p, r, ' ', rest);
    LexableTail(ts);
    p' := p + r + [' '];
    q := |p| + |r|;
    SpaceSeparates(ts[0], p + RenderAll(ts), q);
  }

  lemma SpaceSeparates(t: Token, text: string, q: nat)
    requires q < |text| && text[q] == ' '
    ensures Separated(t, text, q)
  {
  }

  lemma LexedCons(text: string, pos: nat, q: nat, ts: seq<Token>)
    requires ts != [] && q < |text| && text[q] == ' '
    requires NextToken(text, pos) == Produced(ts[0], q) && LexedAt(text, q + 1, ts[1..])
    ensures LexedAt(text, pos, ts)
  {
  }

  /** A token followed by a space: the rest is read after the space. */
  lemma TokenizeSpaced(text: string, pos: nat, q: nat, ts: seq<Token>)
    requires ts != [] && NextToken(text, pos) == Produced(ts[0], q)
    requires q < |text| && text[q] == ' ' && Tokenize(text, q + 1) == Tokens(ts[1..])
    ensures Tokenize(text, pos) == Tokens(ts)
  {
    assert NextToken(text, q) == NextToken(text, q + 1);
    assert Tokenize(text, q) == Tokenize(text, q + 1);
    HeadTail(ts);
  }

  /** Round trip: lexing the rendering of any lexable token list yields
      exactly that list. */
  lemma TokenizeRoundTrip(ts: seq<Token>)
    requires AllLexable(ts)
    ensures Tokenize(RenderAll(ts), 0) == Tokens(ts)
  {
    LexedRendering(ts);
    TokenizeRendered(RenderAll(ts), 0, ts);
  }
}
