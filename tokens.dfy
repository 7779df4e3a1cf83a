/** Tokens of the toy language and the character classes the lexer uses
    (src/interpreterProj.py:9-73). */
module Tokens {

  /** The token types; `OrFunc` is the bare word `or`, distinct from `||`. */
  datatype TokenType =
    | Integer | Boolean | Keyword | Identifier | Operator
    | Punctuation | Comparator | LogicOperator | OrFunc

  /** The token types whose value is a piece of text. */
  type TextKind = k: TokenType | !k.Integer? && !k.Boolean? witness Keyword

  /** `Token(type, value)`: an INTEGER carries an int, a BOOLEAN a bool,
      every other type the text it was read from. */
  datatype Token =
    | NumberToken(n: int)
    | BooleanToken(b: bool)
    | TextToken(kind: TextKind, text: string)
  {
    /** The `type` attribute of the token. */
    function Type(): TokenType {
      match this
      case NumberToken(_) => Integer
      case BooleanToken(_) => Boolean
      case TextToken(k, _) => k
    }
  }

  const Keywords: set<string> := {"Defun", "lambd"}
  const ArithmeticOperators: set<char> := {'/', '*', '-', '+', '%'}
  const Punctuations: set<char> := {'(', ')', ',', '{', '}', ';'}

  /** Python's `str.isspace` (every character Python counts as white space). */
  predicate IsSpace(c: char) {
    c == ' ' || ('\t' <= c <= '\r') || ('\U{1C}' <= c <= '\U{1F}')
    || c == '\U{85}' || c == '\U{A0}' || c == '\U{1680}'
    || ('\U{2000}' <= c <= '\U{200A}') || c == '\U{2028}' || c == '\U{2029}'
    || c == '\U{202F}' || c == '\U{205F}' || c == '\U{3000}'
  }

  /** `str.isdigit`, restricted to the ASCII digits. */
  predicate IsDigit(c: char) { '0' <= c <= '9' }

  /** `str.isalpha`, restricted to the ASCII letters. */
  predicate IsAlpha(c: char) { ('a' <= c <= 'z') || ('A' <= c <= 'Z') }

  /** `str.isalnum`, restricted to ASCII. */
  predicate IsAlnum(c: char) { IsAlpha(c) || IsDigit(c) }

  function DigitValue(c: char): (d: nat)
    requires IsDigit(c)
    ensures d < 10
  {
    (c as int) - ('0' as int)
  }

  /** `int(s)` for a string of decimal digits, read most significant first. */
  function DecimalValue(s: string): (n: nat)
    requires forall i :: 0 <= i < |s| ==> IsDigit(s[i])
    decreases |s|
  {
    if s == [] then 0 else DecimalValue(s[..|s| - 1]) * 10 + DigitValue(s[|s| - 1])
  }

  /** Blank, tab and newline are white space; white space, letters and
      digits are three disjoint classes, and a word character is a letter or
      a digit. So the lexer's branches do not overlap. */
  lemma CharacterClasses(c: char)
    ensures c == ' ' || c == '\t' || c == '\n' ==> IsSpace(c)
    ensures IsSpace(c) ==> !IsAlnum(c)
    ensures !(IsDigit(c) && IsAlpha(c))
    ensures IsAlnum(c) <==> IsAlpha(c) || IsDigit(c)
  {
  }

  /** `int(s)` ends in the value of the last digit, and a run of zeros is 0. */
  lemma {:induction false} DecimalValueDigits(s: string)
    requires forall i :: 0 <= i < |s| ==> IsDigit(s[i])
    ensures s != [] ==> DecimalValue(s) % 10 == DigitValue(s[|s| - 1])
    ensures (forall i :: 0 <= i < |s| ==> s[i] == '0') ==> DecimalValue(s) == 0
    decreases |s|
  {
    if s != [] {
      DecimalValueDigits(s[..|s| - 1]);
    }
  }

  /** `identifier()`'s classification of a word it has read. */
  function Classify(word: string): (t: Token)
    ensures t.Type() == Keyword <==> word in Keywords
    ensures t.Type() == Boolean <==> word == "True" || word == "False"
    ensures t.Type() == OrFunc <==> word == "or"
    ensures t.Type() in {Keyword, Boolean, OrFunc, Identifier}
    ensures t.TextToken? ==> t.text == word
    ensures t.BooleanToken? ==> t.b == (word == "True")
  {
    if word in Keywords then TextToken(Keyword, word)
    else if word == "True" then BooleanToken(true)
    else if word == "False" then BooleanToken(false)
    else if word == "or" then TextToken(OrFunc, "or")
    else TextToken(Identifier, word)
  }

  function DigitChar(d: nat): (c: char)
    requires d < 10
    ensures IsDigit(c) && DigitValue(c) == d
  {
    (('0' as int) + d) as char
  }

  /** The decimal digits of a natural number, most significant first. */
  function DecimalDigits(n: nat): (s: string)
    ensures |s| > 0 && forall i :: 0 <= i < |s| ==> IsDigit(s[i])
    decreases n
  {
    if n < 10 then [DigitChar(n)] else DecimalDigits(n / 10) + [DigitChar(n % 10)]
  }

  /** Reading the digits of `n` back gives `n`. */
  lemma {:induction false} DecimalRoundTrip(n: nat)
    ensures DecimalValue(DecimalDigits(n)) == n
    decreases n
  {
    var s := DecimalDigits(n);
    if n >= 10 {
      DecimalRoundTrip(n / 10);
      assert s[..|s| - 1] == DecimalDigits(n / 10);
    }
  }

  /** A word `identifier()` would read whole: a letter then letters and digits. */
  predicate IsWord(w: string) {
    |w| > 0 && IsAlpha(w[0]) && forall i :: 0 <= i < |w| ==> IsAlnum(w[i])
  }

  /** The tokens the lexer can produce, each with the exact value it gives it. */
  predicate Lexable(t: Token) {
    match t
    case NumberToken(n) => n >= 0
    case BooleanToken(_) => true
    case TextToken(k, s) =>
      match k
      case Keyword => s in Keywords
      case Identifier => IsWord(s) && s !in Keywords && s != "True" && s != "False" && s != "or"
      case OrFunc => s == "or"
      case Operator => s in {"/", "*", "-", "+", "%", "!"}
      case Punctuation => s in {"(", ")", ",", "{", "}", ";"}
      case Comparator => s in {"==", "!=", ">=", "<=", ">", "<"}
      case LogicOperator => s in {"&&", "||"}
  }

  /** The source text of a token: the inverse of lexing one token. */
  function Render(t: Token): (s: string)
    ensures |s| > 0
  {
    match t
    case NumberToken(n) => if n >= 0 then DecimalDigits(n) else "-" + DecimalDigits(-n)
    case BooleanToken(b) => if b then "True" else "False"
    case TextToken(_, s) => if s == [] then "?" else s
  }
}
