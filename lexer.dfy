/** The lexer (src/interpreterProj.py:202-385): a cursor over already
    normalised text that hands out one token per `get_next_token` call.
    `NextToken` is the specification of one call; the class `Lexer` is the
    cursor with its `pos` and `current_char` fields. */
module Lexing {
  import opened Util
  import opened Tokens

  /** What one `get_next_token` call does: return a token (and where the
      cursor stops), return None at the end of the text, raise "Invalid
      character", or loop for ever without moving (`Stuck`). */
  datatype Scan =
    | Produced(tok: Token, next: nat)
    | AtEnd
    | InvalidCharacter
    | Stuck

  /** `current_char` for a cursor at `pos`. */
  function CharAt(text: string, pos: nat): (c: Option<char>)
    ensures c.None? <==> pos >= |text|
    ensures c.Some? ==> c.value == text[pos]
  {
    if pos < |text| then Some(text[pos]) else None
  }

  /** Where a run of characters satisfying a class, starting at `pos`, ends. */
  function DigitRunEnd(text: string, pos: nat): (e: nat)
    requires pos <= |text|
    ensures pos <= e <= |text|
    ensures forall i :: pos <= i < e ==> IsDigit(text[i])
    ensures e == |text| || !IsDigit(text[e])
    decreases |text| - pos
  {
    if pos < |text| && IsDigit(text[pos]) then DigitRunEnd(text, pos + 1) else pos
  }

  function WordRunEnd(text: string, pos: nat): (e: nat)
    requires pos <= |text|
    ensures pos <= e <= |text|
    ensures forall i :: pos <= i < e ==> IsAlnum(text[i])
    ensures e == |text| || !IsAlnum(text[e])
    decreases |text| - pos
  {
    if pos < |text| && IsAlnum(text[pos]) then WordRunEnd(text, pos + 1) else pos
  }

  /** One `get_next_token` call on a cursor at `pos`. */
  function NextToken(text: string, pos: nat): (s: Scan)
    ensures s.Produced? ==> pos < s.next <= |text|
    decreases |text| - pos
  {
    if pos >= |text| then AtEnd
    else
      var c := text[pos];
      if IsSpace(c) then NextToken(text, pos + 1)
      else if c in Punctuations then Produced(TextToken(Punctuation, [c]), pos + 1)
      else if IsDigit(c) then
        var e := DigitRunEnd(text, pos);
        Produced(NumberToken(DecimalValue(text[pos..e])), e)
      else if c in ArithmeticOperators then Produced(TextToken(Operator, [c]), pos + 1)
      else if c == '|' || c == '&' || c == '=' then
        if pos + 1 < |text| then
          if text[pos + 1] == c then
            Produced(TextToken(if c == '=' then Comparator else LogicOperator, [c, c]), pos + 2)
          else Stuck
        else InvalidCharacter
      else if c == '!' || c == '>' || c == '<' then
        if pos + 1 < |text| && text[pos + 1] == '=' then
          Produced(TextToken(Comparator, [c, '=']), pos + 2)
        else
          Produced(TextToken(if c == '!' then Operator else Comparator, [c]), pos + 1)
      else if IsAlpha(c) then
        var e := WordRunEnd(text, pos);
        Produced(Classify(text[pos..e]), e)
      else InvalidCharacter
  }

  /** Every token a `get_next_token` call returns is one the lexer can
      produce. */
  lemma {:induction false} ProducedLexable(text: string, pos: nat)
    ensures NextToken(text, pos).Produced? ==> Lexable(NextToken(text, pos).tok)
    decreases |text| - pos
  {
    if pos < |text| && IsSpace(text[pos]) {
      ProducedLexable(text, pos + 1);
    }
  }

  /** The whole text as a token list: the outcome of calling
      `get_next_token` until it returns None. */
  datatype Tokenized = Tokens(tokens: seq<Token>) | Fails(last: Scan)

  function Tokenize(text: string, pos: nat): (r: Tokenized)
    ensures r.Tokens? ==> forall i :: 0 <= i < |r.tokens| ==> Lexable(r.tokens[i])
    ensures r.Fails? ==> r.last.InvalidCharacter? || r.last.Stuck?
    decreases |text| - pos
  {
    if pos > |text| then Tokens([])
    else
      ProducedLexable(text, pos);
      match NextToken(text, pos)
      case Produced(t, p) =>
        (match Tokenize(text, p)
         case Tokens(ts) => Tokens([t] + ts)
         case Fails(s) => Fails(s))
      case AtEnd => Tokens([])
      case other => Fails(other)
  }

  /** The cursor. `text` is set once by the constructor. */
  class Lexer {
    const text: string
    var pos: nat
    var currentChar: Option<char>

    ghost predicate Valid()
      reads this
    {
      pos <= |text| && currentChar == CharAt(text, pos)
    }

    /** The constructor once the text is known to be non-empty; the failing
        cases of `Lexer.__init__` are `Session.PrepareText`. */
    constructor (text: string)
      requires |text| > 0
      ensures Valid() && this.text == text && pos == 0
    {
      this.text := text;
      pos := 0;
      currentChar := Some(text[0]);
    }

    /** `advance`: move one character forward. */
    method Advance()
      requires Valid() && pos < |text|
      modifies this
      ensures Valid() && pos == old(pos) + 1
    {
      pos := pos + 1;
      if pos < |text| {
        currentChar := Some(text[pos]);
      } else {
        currentChar := None;
      }
    }

    /** `skip_whitespace`: move to the first character that is not white space. */
    method SkipWhitespace()
      requires Valid()
      modifies this
      ensures Valid() && old(pos) <= pos
      ensures forall i :: old(pos) <= i < pos ==> IsSpace(text[i])
      ensures pos == |text| || !IsSpace(text[pos])
    {
      while currentChar.Some? && IsSpace(currentChar.value)
        invariant Valid() && old(pos) <= pos
        invariant forall i :: old(pos) <= i < pos ==> IsSpace(text[i])
        decreases |text| - pos
      {
        Advance();
      }
    }

    /** `number`: read the run of digits under the cursor and return its value. */
    method Number() returns (n: int)
      requires Valid() && pos < |text| && IsDigit(text[pos])
      modifies this
      ensures Valid() && pos == DigitRunEnd(text, old(pos))
      ensures n == DecimalValue(text[old(pos)..pos])
    {
      var result := "";
      while currentChar.Some? && IsDigit(currentChar.value)
        invariant Valid() && old(pos) <= pos
        invariant DigitRunEnd(text, old(pos)) == DigitRunEnd(text, pos)
        invariant result == text[old(pos)..pos]
        invariant forall i :: 0 <= i < |result| ==> IsDigit(result[i])
        decreases |text| - pos
      {
        result := result + [currentChar.value];
        Advance();
      }
      n := DecimalValue(result);
    }

    /** `identifier`: read the alphanumeric run under the cursor and classify it. */
    method Identifier() returns (t: Token)
      requires Valid()
      modifies this
      ensures Valid() && pos == WordRunEnd(text, old(pos))
      ensures t == Classify(text[old(pos)..pos])
    {
      var result := "";
      while currentChar.Some? && IsAlnum(currentChar.value)
        invariant Valid() && old(pos) <= pos
        invariant WordRunEnd(text, old(pos)) == WordRunEnd(text, pos)
        invariant result == text[old(pos)..pos]
        decreases |text| - pos
      {
        result := result + [currentChar.value];
        Advance();
      }
      if result in Keywords {
        t := TextToken(Keyword, result);
      } else if result == "True" {
        t := BooleanToken(true);
      } else if result == "False" {
        t := BooleanToken(false);
      } else if result == "or" {
        t := TextToken(OrFunc, "or");
      } else {
        t := TextToken(TokenType.Identifier, result);
      }
    }

    /** `get_next_token`. Where the source loops for ever (a `|`, `&` or `=`
        followed by a different character) this returns `Stuck` at once. */
    method GetNextToken() returns (s: Scan)
      requires Valid()
      modifies this
      ensures Valid() && s == NextToken(text, old(pos))
      ensures s.Produced? ==> pos == s.next
      ensures s.AtEnd? ==> pos == |text|
    {
      while currentChar.Some?
        invariant Valid() && NextToken(text, pos) == NextToken(text, old(pos))
        decreases |text| - pos
      {
        var c := currentChar.value;
        if IsSpace(c) {
          ghost var from := pos;
          SkipWhitespace();
          SpacesSkipped(text, from, pos);
        } else if c in Punctuations {
          s := Produced(TextToken(Punctuation, [c]), pos + 1);
          Advance();
          return;
        } else if IsDigit(c) {
          var n := Number();
          s := Produced(NumberToken(n), pos);
          return;
        } else if c in ArithmeticOperators {
          s := Produced(TextToken(Operator, [c]), pos + 1);
          Advance();
          return;
        } else if c == '|' || c == '&' || c == '=' {
          if pos + 1 >= |text| {
            s := InvalidCharacter;
          } else if text[pos + 1] == c {
            s := Produced(TextToken(if c == '=' then Comparator else LogicOperator, [c, c]), pos + 2);
            Advance();
            Advance();
          } else {
            s := Stuck;
          }
          return;
        } else if c == '!' || c == '>' || c == '<' {
          if pos + 1 < |text| && text[pos + 1] == '=' {
            s := Produced(TextToken(Comparator, [c, '=']), pos + 2);
            Advance();
            Advance();
          } else {
            s := Produced(TextToken(if c == '!' then Operator else Comparator, [c]), pos + 1);
            Advance();
          }
          return;
        } else if IsAlpha(c) {
          var t := Identifier();
          s := Produced(t, pos);
          return;
        } else {
          s := InvalidCharacter;
          return;
        }
      }
      s := AtEnd;
    }
  }

  /** Skipping white space does not change what the next token is. */
  lemma {:induction false} SpacesSkipped(text: string, lo: nat, hi: nat)
    requires lo <= hi <= |text|
    requires forall i :: lo <= i < hi ==> IsSpace(text[i])
    ensures NextToken(text, lo) == NextToken(text, hi)
    decreases hi
  {
    if lo < hi {
      SpacesSkipped(text, lo, hi - 1);
    }
  }
}
