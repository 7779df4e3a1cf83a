/** One line of input through the whole pipeline: the text rewriting done by
    `Lexer.__init__` (src/interpreterProj.py:202-223), the lexer and parser
    built on it, and `Interpreter.interpret` on the statements parsed. */
module Session {
  import opened Util
  import opened Tokens
  import opened Lexing
  import opened Syntax
  import opened Parsing
  import opened Parsers
  import opened Evaluation
  import opened Interpreting
  import opened LexerProperties
  import opened ParserProperties

  /** Python's `s.replace(old, new)`: every occurrence of `old`, scanning left
      to right without overlaps. A replacement at least as long as the
      pattern never shortens the text. */
  function Replace(s: string, pat: string, rep: string): (r: string)
    requires |pat| > 0
    ensures |rep| >= |pat| ==> |r| >= |s|
    decreases |s|
  {
    if |s| == 0 then s
    else if |pat| <= |s| && s[..|pat|] == pat then rep + Replace(s[|pat|..], pat, rep)
    else [s[0]] + Replace(s[1..], pat, rep)
  }

  /** A text without `old` is given back unchanged. */
  lemma {:induction false} ReplaceAbsent(s: string, pat: string, rep: string)
    requires |pat| > 0 && !HasInfix(s, pat)
    ensures Replace(s, pat, rep) == s
    decreases |s|
  {
    if |s| > 0 {
      ReplaceAbsent(s[1..], pat, rep);
      assert [s[0]] + s[1..] == s;
    }
  }

  /** The first character of a rewritten text is that of `new` or of `s`. */
  lemma ReplaceHead(s: string, pat: string, rep: string)
    requires |pat| > 0 && |s| > 0 && |rep| > 0
    ensures |Replace(s, pat, rep)| > 0
    ensures Replace(s, pat, rep)[0] == (if |pat| <= |s| && s[..|pat|] == pat then rep[0] else s[0])
  {
  }

  /** No two neighbouring characters of `s` are both `c`. */
  predicate NoDoubled(s: string, c: char) {
    forall i :: 0 <= i < |s| - 1 ==> !(s[i] == c && s[i + 1] == c)
  }

  lemma DoubledFound(s: string, c: char, i: nat)
    requires i + 2 <= |s| && s[i..i + 2] == [c, c]
    ensures !NoDoubled(s, c)
  {
    assert s[i] == s[i..i + 2][0] && s[i + 1] == s[i..i + 2][1];
  }

  /** A text with no two neighbouring `c` does not contain `cc`. */
  lemma {:induction false} NoDoubledNoInfix(s: string, c: char)
    requires NoDoubled(s, c)
    ensures !HasInfix(s, [c, c])
    decreases |s|
  {
    if 2 <= |s| && s[..2] == [c, c] {
      DoubledFound(s, c, 0);
    }
    if |s| > 0 {
      assert NoDoubled(s[1..], c) by {
        forall i | 0 <= i < |s[1..]| - 1
          ensures !(s[1..][i] == c && s[1..][i + 1] == c)
        {
          assert s[1..][i] == s[i + 1] && s[1..][i + 1] == s[i + 2];
        }
      }
      NoDoubledNoInfix(s[1..], c);
    }
  }

  lemma NoDoubledCons(a: string, b: string, c: char)
    requires NoDoubled(a, c) && NoDoubled(b, c)
    requires |a| == 0 || |b| == 0 || a[|a| - 1] != c || b[0] != c
    ensures NoDoubled(a + b, c)
  {
    var s := a + b;
    forall i | 0 <= i < |s| - 1
      ensures !(s[i] == c && s[i + 1] == c)
    {
      if i + 1 < |a| {
        assert s[i] == a[i] && s[i + 1] == a[i + 1];
      } else if i + 1 == |a| {
        assert s[i] == a[|a| - 1] && s[i + 1] == b[0];
      } else {
        assert s[i] == b[i - |a|] && s[i + 1] == b[i + 1 - |a|];
      }
    }
  }

  /** Replacing the doubled character `cc` by a text without `c` removes
      every `cc`: `s.replace("&&", " and ")` leaves no `&&`. */
  lemma {:induction false} ReplaceRemovesDoubled(s: string, c: char, rep: string)
    requires |rep| > 0 && c !in rep
    ensures NoDoubled(Replace(s, [c, c], rep), c)
    decreases |s|
  {
    var pat := [c, c];
    if |s| > 0 {
      if 2 <= |s| && s[..2] == pat {
        ReplaceRemovesDoubled(s[2..], c, rep);
        assert NoDoubled(rep, c);
        NoDoubledCons(rep, Replace(s[2..], pat, rep), c);
      } else {
        ReplaceRemovesDoubled(s[1..], c, rep);
        var rest := Replace(s[1..], pat, rep);
        if |s| > 1 {
          ReplaceHead(s[1..], pat, rep);
          if s[0] == c {
            assert s[1] != c by { assert s[..2] == [s[0], s[1]]; }
            assert s[1..][0] == s[1];
            assert !(2 <= |s[1..]| && s[1..][..2] == pat) by {
              if 2 <= |s[1..]| {
                assert s[1..][..2][0] == s[1];
              }
            }
          }
        }
        NoDoubledCons([s[0]], rest, c);
      }
    }
  }

  /** Rewriting a text with no doubled `c`, where neither `old` nor `new`
      holds `c`, creates no doubled `c`: replacing `||` keeps `&&` out. */
  lemma {:induction false} ReplaceKeepsNoDoubled(s: string, pat: string, rep: string, c: char)
    requires |pat| > 0 && |rep| > 0 && c !in pat && c !in rep && NoDoubled(s, c)
    ensures NoDoubled(Replace(s, pat, rep), c)
    decreases |s|
  {
    if |s| > 0 {
      if |pat| <= |s| && s[..|pat|] == pat {
        assert NoDoubled(s[|pat|..], c) by {
          forall i | 0 <= i < |s[|pat|..]| - 1
            ensures !(s[|pat|..][i] == c && s[|pat|..][i + 1] == c)
          {
            assert s[|pat|..][i] == s[i + |pat|] && s[|pat|..][i + 1] == s[i + |pat| + 1];
          }
        }
        ReplaceKeepsNoDoubled(s[|pat|..], pat, rep, c);
        assert NoDoubled(rep, c);
        NoDoubledCons(rep, Replace(s[|pat|..], pat, rep), c);
      } else {
        assert NoDoubled(s[1..], c) by {
          forall i | 0 <= i < |s[1..]| - 1
            ensures !(s[1..][i] == c && s[1..][i + 1] == c)
          {
            assert s[1..][i] == s[i + 1] && s[1..][i + 1] == s[i + 2];
          }
        }
        ReplaceKeepsNoDoubled(s[1..], pat, rep, c);
        if |s| > 1 {
          ReplaceHead(s[1..], pat, rep);
          assert s[1..][0] == s[1];
        }
        NoDoubledCons([s[0]], Replace(s[1..], pat, rep), c);
      }
    }
  }

  /** The rewriting of logical operators: `&&` becomes ` and `, `||` becomes
      ` or `. The source walks a set of the two operators; the two rewrites
      touch disjoint characters, and the model does `&&` first. */
  function RewriteLogic(text: string): (r: string)
    ensures |r| >= |text|
  {
    Replace(Replace(text, "&&", " and "), "||", " or ")
  }

  /** After the rewriting no `&&` and no `||` is left. */
  lemma RewriteLogicRemoves(text: string)
    ensures !HasInfix(RewriteLogic(text), "&&") && !HasInfix(RewriteLogic(text), "||")
  {
    var t := Replace(text, "&&", " and ");
    assert "&&" == ['&', '&'] && "||" == ['|', '|'];
    ReplaceRemovesDoubled(text, '&', " and ");
    ReplaceKeepsNoDoubled(t, "||", " or ", '&');
    NoDoubledNoInfix(RewriteLogic(text), '&');
    ReplaceRemovesDoubled(t, '|', " or ");
    NoDoubledNoInfix(RewriteLogic(text), '|');
  }

  /** A text without either operator is not rewritten. */
  lemma RewriteLogicAbsent(text: string)
    requires !HasInfix(text, "&&") && !HasInfix(text, "||")
    ensures RewriteLogic(text) == text
  {
    ReplaceAbsent(text, "&&", " and ");
    ReplaceAbsent(text, "||", " or ");
  }

  /** The text `Lexer.__init__` works on, or None where it raises
      "Syntax error". A text holding `Defun` or `;` is kept as it is;
      any other is rewritten and then reordered by `order`, which stands for
      `OrderParanthText` (None where that returns None or raises). An empty
      text is refused by the first character's lookup. */
  function PrepareText(text: string, order: string -> Option<string>): (r: Option<string>)
    ensures r.Some? ==> |r.value| > 0
    ensures (HasInfix(text, "Defun") || HasInfix(text, ";")) ==> r == (if |text| == 0 then None else Some(text))
  {
    var t := if HasInfix(text, "Defun") || HasInfix(text, ";") then Some(text) else order(RewriteLogic(text));
    if t.None? || |t.value| == 0 then None else t
  }

  /** Why a line was not run. */
  datatype Rejection = SyntaxErrorAtLexer | InvalidCharacterAtStart | HangAtStart | ParseFailed(e: PError)

  /** The statements a line parses to, against the functions already known.
      A line holding `Defun` or `;` is parsed as it was typed, whatever
      `order` does. */
  function Program(text: string, order: string -> Option<string>, known: set<string>): (r: Result<seq<Stmt>, Rejection>)
    ensures (HasInfix(text, "Defun") || HasInfix(text, ";")) && r.Ok? ==>
      Start(text).Ok? && ParseLoop([], Start(text).value, known) == Ok(r.value)
    ensures (HasInfix(text, "Defun") || HasInfix(text, ";")) && |text| > 0 && Start(text).Ok? ==>
      (r.Ok? <==> ParseLoop([], Start(text).value, known).Ok?)
  {
    match PrepareText(text, order)
    case None => Err(SyntaxErrorAtLexer)
    case Some(t) =>
      match Start(t)
      case Err(s) => Err(if s == InvalidCharacter then InvalidCharacterAtStart else HangAtStart)
      case Ok(st) =>
        match ParseLoop([], st, known)
        case Err(e) => Err(ParseFailed(e))
        case Ok(stmts) => Ok(stmts)
  }

  datatype LineOutcome = Rejected(why: Rejection) | Ran(answer: Answer)

  /** One line through `Lexer`, `Parser` and `interpret`: a line that does
      not parse changes nothing; one that does is run on the statements
      `Program` gives. */
  method RunText(interp: Interpreter, text: string, order: string -> Option<string>) returns (r: LineOutcome)
    modifies interp
    ensures var p := Program(text, order, old(interp.globalEnv).Keys);
      match p
      case Err(why) =>
        r == Rejected(why) && interp.globalEnv == old(interp.globalEnv) && interp.output == old(interp.output)
      case Ok(stmts) =>
        var x := Execute(old(interp.globalEnv), stmts, interp.fuel);
        && r == Ran(AnswerOf(x))
        && interp.globalEnv == x.globals
        && interp.output == old(interp.output) + Printed(x)
  {
    var prepared := PrepareText(text, order);
    if prepared.None? {
      return Rejected(SyntaxErrorAtLexer);
    }
    var lexer := new Lexer(prepared.value);
    var start := Open(lexer, interp.globalEnv.Keys);
    if start.Err? {
      return Rejected(if start.error == OpenInvalidCharacter then InvalidCharacterAtStart else HangAtStart);
    }
    var parser := start.value;
    var parsed := parser.Parse();
    if parsed.Err? {
      return Rejected(ParseFailed(parsed.error));
    }
    var answer := interp.Interpret(parsed.value);
    r := Ran(answer);
  }

  /** A definition written out in canonical form is taken as it is and
      parses back to that one definition, whatever `order` does. */
  lemma DefinitionLine(name: string, ps: seq<string>, body: Node, known: set<string>, order: string -> Option<string>)
    requires NamesOnly(known) && IdentWord(name)
    requires forall i :: 0 <= i < |ps| ==> IdentWord(ps[i])
    requires ExprCanonical(body, name, known)
    ensures Program(RenderAll(DefunSpelling(name, ps, body)), order, known) == Ok([FuncDef(name, ps, body)])
  {
    var ts := DefunSpelling(name, ps, body);
    var text := RenderAll(ts);
    assert ts[0] == TextToken(Keyword, "Defun");
    assert text == "Defun" + " " + RenderAll(ts[1..]);
    assert text[0..5] == "Defun";
    HasInfixAt(text, "Defun", 0);
    DefunRendered(name, ps, body, known);
  }

  /** Statements written out with `;` between them, and perhaps one more `;`
      at the end, are taken as they are and parse back to those statements,
      in order, whatever `order` does. */
  lemma SeparatedLine(ss: seq<Stmt>, tail: seq<Token>, known: set<string>, order: string -> Option<string>)
    requires NamesOnly(known) && ss != [] && (tail == [] || tail == [Semicolon])
    requires |ss| >= 2 || tail == [Semicolon]
    requires AllSpellable(ss, known)
    ensures Program(RenderAll(Joined(ss) + tail), order, known) == Ok(ss)
  {
    var k := JoinedSemicolon(ss, tail);
    RenderedSemicolon(Joined(ss) + tail, k);
    JoinedRendered(ss, tail, known);
  }

  /** An expression written out in canonical form parses back to itself,
      provided `order` gives the text back once its operators are rewritten. */
  lemma ExpressionLine(e: Node, known: set<string>, order: string -> Option<string>)
    requires NamesOnly(known) && Canonical(e, "", known)
    requires e.Num? || e.Bool? || e.BinOp? || e.UnaryOp? || e.OrSeq?
    requires order(RewriteLogic(RenderAll(Spelling(e)))) == Some(RenderAll(Spelling(e)))
    ensures Program(RenderAll(Spelling(e)), order, known) == Ok([ExprStmt(e)])
  {
    ParseRendered(e, known);
  }
}
