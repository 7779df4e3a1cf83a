# A verified model of a small functional-language interpreter and of a set of functional exercises

The repository has two parts. The first, `src/interpreterProj.py`, is an
interpreter for a small expression language:

- integers and booleans;
- arithmetic, comparison and logical operators, and `!`;
- named functions introduced by `Defun`;
- anonymous functions written `lambd (params) (body)`;
- calls;
- an `or` form that tests a condition against a function's first argument.

It has a hand-written lexer, a recursive-descent parser that builds an
abstract syntax tree, and an interpreter. The interpreter walks the tree
with a global table of function definitions that persists from one line to
the next. A `TypeError` is printed and the statement's value becomes
`None`. A `RuntimeError` is printed and ends the line.

The second part, `src/partb.py`, is a set of short functions written with
`map`, `filter` and `reduce`: Fibonacci numbers, joining words, sums of
squares, factorial, power towers, counting palindromes and primes.

The model is split by component:

| file | module | what it holds |
|---|---|---|
| `util.dfy` | `Util` | `Option`, `Result`, substring search, small sequence lemmas |
| `tokens.dfy` | `Tokens` | token types, character classes, keyword classification, the text of a token |
| `lexer.dfy` | `Lexing` | `NextToken` (one `get_next_token` call on a text and position), `Tokenize`, and the class `Lexer` with a `text` and a `pos` field, proved against `NextToken` |
| `lexer_props.dfy` | `LexerProperties` | what each kind of character run lexes to; lexing a rendered token list gives it back |
| `syntax.dfy` | `Syntax` | the tree: expressions `Node` and statements `Stmt` |
| `parser.dfy` | `Parsing` | the parser as functions on a parser state (text, position, current token) |
| `parser_class.dfy` | `Parsers` | the class `Parser` whose methods (with the source's loops) are proved to realise those functions |
| `parser_props.dfy` | `ParserProperties` | operator grouping, statement order, and parsing the spelling of an expression or definition gives it back |
| `evaluation.dfy` | `Evaluation` | values, Python's floor division and equality, `visit` and `_evaluate` on one node |
| `evaluation_props.dfy` | `EvaluationProperties` | type and runtime errors, argument binding, calls, the `or` form, the programs of the test suite |
| `interpreter.dfy` | `Interpreting` | the statement loop and the class `Interpreter` (global table and printed output) |
| `interpreter_props.dfy` | `InterpreterProperties` | which results are "defined successfully", how the table grows, running two lines in a row |
| `session.dfy` | `Session` | one input line put through `Lexer`, `Parser` and `interpret`, including the `&&`/`||` rewriting |
| `exercises.dfy` | `Exercises` | every function of `src/partb.py`, each beside a reference definition, and the expected outputs in its `main` |

How Python behaviour is represented:

- Exceptions are data. A line can fail before it runs in three ways.
  An invalid first character is the "Invalid character" error
  (`InvalidCharacterAtStart`), because `Parser.__init__` reads the first
  token outside the `try` of `parse` (src/interpreterProj.py:510, 226). A
  lexer that never returns is `Hang` (or `HangAtStart` on the first token).
  Every other lexer or parser failure is the "Syntax error" of `parse`
  (`SyntaxError`). An evaluation either yields a value or raises a `TypeError`, a `RuntimeError`
  (with the reason) or an `IndexError`.
- What the interpreter prints is a list of `Line`s.
- Python's recursion limit is a `fuel` bound on how deeply user-defined
  calls may nest. Running out raises the `RuntimeError` that Python's
  `RecursionError` is.
- `//` and `%` are Python's floored operators.
- `==` is Python's, so `True == 1` holds.
- Dictionaries used as local environments keep insertion order.

## Model

| member | source | states |
|---|---|---|
| Tokens.Classify | src/interpreterProj.py:260-273 | `Defun`/`lambd` are KEYWORD, `True`/`False` are BOOLEAN with that value, `or` is ORFUNC, and every other word is IDENTIFIER. Each implication holds in both directions, and a text token keeps the word. |
| Tokens.DecimalRoundTrip | src/interpreterProj.py:245-252 | reading the decimal digits of any natural number back, as `int(result)` does, gives that number |
| Tokens.DecimalValueDigits | src/interpreterProj.py:245-252 | `int()` of a digit run ends in the value of its last digit, and a run of zeros is 0 |
| Tokens.CharacterClasses | src/interpreterProj.py:241-258 | `isspace`, `isdigit`, `isalpha` and `isalnum` as the lexer uses them: blank, tab and newline are white space, the three classes are disjoint, and `isalnum` is letter or digit |
| Lexing.DigitRunEnd | src/interpreterProj.py:248-250 | the `number` loop stops at the first non-digit after a run, or at the end of the text |
| Lexing.CharAt | src/interpreterProj.py:233-239 | `current_char` is None exactly past the end of the text, and otherwise the character at the position |
| Lexing.WordRunEnd | src/interpreterProj.py:256-258 | the `identifier` loop stops at the first non-alphanumeric character, or at the end |
| Lexing.NextToken | src/interpreterProj.py:275-385 | when a token is produced, the cursor moves forward and stays within the text |
| Lexing.ProducedLexable | src/interpreterProj.py:275-385 | every token a call returns is one the lexer can produce: a non-negative number, a keyword, a known operator, punctuation, comparator or logic operator, or an identifier word |
| Lexing.Lexer.constructor | src/interpreterProj.py:218-222 | on a non-empty text the lexer starts at position 0 |
| Lexing.Lexer.Advance | src/interpreterProj.py:234-239 | the position moves one character forward |
| Lexing.Lexer.SkipWhitespace | src/interpreterProj.py:241-243 | every skipped character is white space, and the one now under the cursor is not |
| Lexing.Lexer.Number | src/interpreterProj.py:245-252 | consumes the maximal run of digits and returns its decimal value |
| Lexing.Lexer.Identifier | src/interpreterProj.py:254-273 | consumes the maximal alphanumeric run and returns its classification |
| Lexing.Lexer.GetNextToken | src/interpreterProj.py:275-385 | returns what `NextToken` specifies for the old position and leaves the cursor after the token |
| Lexing.SpacesSkipped | src/interpreterProj.py:276-280 | white space before a token does not change which token is read |
| Lexing.Tokenize | src/interpreterProj.py:275-385 | calling `get_next_token` until it returns None: every token read is one the lexer can produce, and a failure is "Invalid character" or a lexer that never returns |
| LexerProperties.DigitRunAt | src/interpreterProj.py:248-250 | the end of a maximal digit run is exactly where the run loop stops |
| LexerProperties.WordRunAt | src/interpreterProj.py:256-258 | the same for an alphanumeric run |
| LexerProperties.NumberRun | src/interpreterProj.py:289-290 | a maximal run of digits is one INTEGER token holding its value, and the cursor is left just after it |
| LexerProperties.WordRun | src/interpreterProj.py:379-380 | a maximal alphanumeric run starting with a letter is one token, classified as KEYWORD, BOOLEAN, ORFUNC or IDENTIFIER, each case in both directions |
| LexerProperties.TwoCharacterOperators | src/interpreterProj.py:299-376 | `==`, `!=`, `>=`, `<=`, `&&` and `\|\|` consume two characters. They are COMPARATOR or LOGICOPERATOR tokens with that text. |
| LexerProperties.OneCharacterOperators | src/interpreterProj.py:330-376 | `!`, `<` and `>` not followed by `=` consume one character. `!` is an OPERATOR, and `<`/`>` are COMPARATORs. |
| LexerProperties.LoneOperatorCharacters | src/interpreterProj.py:299-328 | a final `\|`, `&` or `=` raises "Invalid character". Followed by a different character, it makes the lexer loop for ever. |
| LexerProperties.EndOfInput | src/interpreterProj.py:276-280 | with only white space left, `get_next_token` returns None |
| LexerProperties.ClassifyRendered | src/interpreterProj.py:254-273 | each word token is classified back to itself |
| LexerProperties.LexNumberRendered | src/interpreterProj.py:289-290 | the digits of `n`, followed by a non-digit, lex to the INTEGER `n` |
| LexerProperties.LexWordRendered | src/interpreterProj.py:379-380 | the text of a word token, followed by a non-alphanumeric character, lexes to that token |
| LexerProperties.AlphaToken | src/interpreterProj.py:379-380 | a letter starts the word token of its maximal alphanumeric run |
| LexerProperties.LexSymbolRendered | src/interpreterProj.py:283-376 | the text of a punctuation, operator, comparator or logic-operator token lexes to that token |
| LexerProperties.LexRendered | src/interpreterProj.py:275-385 | every token the lexer can produce is read back from its own text, with the cursor just after it |
| LexerProperties.TokenizeRendered | src/interpreterProj.py:275-385 | where `get_next_token` reads the tokens of a list one at a time, each followed by a space, up to the end, calling it until it returns None gives exactly that list |
| LexerProperties.LexedRendering | src/interpreterProj.py:275-385 | on the space-separated rendering of a list of lexable tokens, `get_next_token` reads each token in turn, each followed by a space, up to the end |
| LexerProperties.LexedAfter | src/interpreterProj.py:275-385 | the same after any prefix, starting from the end of the prefix |
| LexerProperties.TokenizeSpaced | src/interpreterProj.py:276-280 | a token followed by a space: the rest is read after the space |
| LexerProperties.TokenizeRoundTrip | src/interpreterProj.py:202-385 | round trip: lexing the rendering of any list of lexable tokens gives that list |
| Syntax.OpText | src/interpreterProj.py:850-914 | every binary operator has a text that names it back |
| Syntax.OpFromText | src/interpreterProj.py:16-20 | a text names an operator exactly when it is one of the operator texts |
| Parsing.Lex | src/interpreterProj.py:275-385 | a successful lex keeps the text and moves the cursor past any token it produced. A failure is "Invalid character" or a lexer that never returns. |
| Parsing.Eat | src/interpreterProj.py:515-519 | `eat` succeeds exactly when the current token has the required type and the next token lexes. Only the type is checked. It returns the eaten token. |
| Parsing.Start | src/interpreterProj.py:507-510 | the parser's first token is read from the text itself, and a failure is "Invalid character" or a lexer that never returns |
| Parsing.Factor | src/interpreterProj.py:521-596 | `factor` keeps the text and consumes at least one token. A `FuncOp` it returns, read inside brackets, has a call on its left. |
| Parsing.Bracketed | src/interpreterProj.py:584-588 | the same for `( expr )` |
| Parsing.Negation | src/interpreterProj.py:590-593 | `! factor` gives a negation node and consumes input |
| Parsing.NegativeLiteral | src/interpreterProj.py:572-582 | `(-N)` gives a number node and consumes input |
| Parsing.Combine | src/interpreterProj.py:598-724 | a loop step builds `BinOp(left, op, right)` for an operator text, and `advancedFuncOp(left, right)` for `or` |
| Parsing.NamedCall | src/interpreterProj.py:535-570 | a call read inside an expression has at least one argument |
| Parsing.ArgTail | src/interpreterProj.py:541-547 | the `,` loop only adds arguments |
| Parsing.Fold | src/interpreterProj.py:601-654 | a tier's loop ends on a token that is not one of the tier's operators. It builds no `FuncOp`: a `FuncOp` result is the node it started from. |
| Parsing.Folds | src/interpreterProj.py:601-654 | the four loops in order end on a token that is not `or`, and a `FuncOp` result is the node they started from |
| Parsing.Term | src/interpreterProj.py:598-654 | `term` consumes input and ends on a token that is not `or`. A `FuncOp` it returns has a call on its left. |
| Parsing.Expr | src/interpreterProj.py:656-724 | `expr` consumes input and builds a `FuncOp` only with a call on its left, as the `, factor` step demands |
| Parsing.LambdaExpr | src/interpreterProj.py:753-763 | `lambda_expr` yields a lambda node |
| Parsing.Params | src/interpreterProj.py:726-740 | `params` stops at a token that is not an identifier |
| Parsing.FunctionDefinition | src/interpreterProj.py:742-751 | `function_definition` yields a definition |
| Parsing.FunctionCall | src/interpreterProj.py:765-792 | `function_call` keeps the text, consumes input and yields a call |
| Parsing.StmtArg | src/interpreterProj.py:771-790 | one argument of a statement-level call keeps the text and consumes input |
| Parsing.StmtArgTail | src/interpreterProj.py:778-790 | the `,` loop of `function_call` only adds arguments |
| Parsing.Statement | src/interpreterProj.py:794-804 | a statement keeps the text and consumes at least one token |
| Parsing.ParseLoop | src/interpreterProj.py:806-819 | the statements already read stay, in order, at the front of the result |
| Parsers.Parser.constructor | src/interpreterProj.py:507-510 | the parser holds the lexer, the interpreter's function names and the first token |
| Parsers.Open | src/interpreterProj.py:507-510 | `Parser(lexer, interpreter)` succeeds exactly when the first token lexes. Its state is then the specified start state, and "Invalid character" is distinguished from a lexer that never returns. |
| Parsers.Parser.Eat | src/interpreterProj.py:515-519 | the method realises `Parsing.Eat`: the same outcome and the same new state |
| Parsers.Parser.Factor | src/interpreterProj.py:521-596 | realises `Parsing.Factor` |
| Parsers.Parser.Bracketed | src/interpreterProj.py:584-588 | realises the `( expr )` rule |
| Parsers.Parser.Negation | src/interpreterProj.py:590-593 | realises the `! factor` rule |
| Parsers.Parser.NegativeLiteral | src/interpreterProj.py:572-582 | realises the `(-N)` rule |
| Parsers.Parser.NamedCall | src/interpreterProj.py:535-570 | realises the two call rules of `factor`, including their `,` loops |
| Parsers.Parser.Fold | src/interpreterProj.py:601-654 | realises one operator loop of `term`/`expr` |
| Parsers.Parser.Folds | src/interpreterProj.py:598-654 | realises the four loops in the order the source runs them |
| Parsers.Parser.Term | src/interpreterProj.py:598-654 | realises `term` |
| Parsers.Parser.Expr | src/interpreterProj.py:656-724 | realises `expr`, including the `, factor` pairing loop |
| Parsers.Parser.Params | src/interpreterProj.py:726-740 | realises `params` |
| Parsers.Parser.LambdaExpr | src/interpreterProj.py:753-763 | realises `lambda_expr` |
| Parsers.Parser.FunctionDefinition | src/interpreterProj.py:742-751 | realises `function_definition` |
| Parsers.Parser.FunctionCall | src/interpreterProj.py:765-792 | realises `function_call`, including its argument loop |
| Parsers.Parser.StmtArg | src/interpreterProj.py:770-790 | realises one argument of a statement-level call |
| Parsers.Parser.Statement | src/interpreterProj.py:794-804 | realises `statement` |
| Parsers.Parser.Parse | src/interpreterProj.py:806-819 | `parse` returns exactly what `ParseLoop` specifies from the current state. On success every token has been read, and the lexer stays in a valid state. |
| ParserProperties.OpToken | src/interpreterProj.py:598-724 | each operator's token is lexable and is taken by that operator's tier loop |
| ParserProperties.FoldsStop | src/interpreterProj.py:598-724 | a closing token ends all four loops without a step |
| ParserProperties.FoldsOneStep | src/interpreterProj.py:598-724 | `op right` and then a closing token make one node: the loop of `op`'s tier takes one step and the others none |
| ParserProperties.FoldLeftAssociative | src/interpreterProj.py:601-654 | within a tier the loop folds to the left: `l op1 a op2 b` gives `(l op1 a) op2 b` |
| ParserProperties.FactorSpelled | src/interpreterProj.py:521-596 | `factor` reads every canonical expression back from its token spelling, ending exactly after it |
| ParserProperties.NegationSpelled | src/interpreterProj.py:590-593 | the same for `! e` |
| ParserProperties.BracketSpelled | src/interpreterProj.py:584-588 | the same for `( l op r )` |
| ParserProperties.ExprSpelled | src/interpreterProj.py:656-724 | `expr` reads a canonical expression, or a pair `call , e`, followed by a closing token back as itself |
| ParserProperties.PairSpelled | src/interpreterProj.py:713-722 | the `, factor` step of `expr`: a call, `,` and an expression are read as the `FuncOp` of the two, whatever token follows |
| ParserProperties.ParamsSpelled | src/interpreterProj.py:726-740 | `params` reads a list of names, separated by commas, back as that list, after any names already read |
| ParserProperties.LambdaSpelled | src/interpreterProj.py:753-763 | `factor` reads `lambd ( params ) ( body )` back as that lambda |
| ParserProperties.CallSpelled | src/interpreterProj.py:535-570 | `factor` reads `name ( args )` back as that call. An argument may be a pair `call , e`. |
| ParserProperties.ArgTailSpelled | src/interpreterProj.py:541-547 | the `,` loop reads the spelled remaining arguments back in order |
| ParserProperties.SpellingLexable | src/interpreterProj.py:275-385 | every token of a canonical expression's spelling is one the lexer can produce |
| ParserProperties.ExprSpellingLexable | src/interpreterProj.py:275-385 | the same for a pair `call , e` |
| ParserProperties.WalkRendered | src/interpreterProj.py:515-519 | eating the tokens of a rendered list one by one reads exactly those tokens, and leaves no token |
| ParserProperties.StartRendered | src/interpreterProj.py:507-510 | the parser's start state on a rendered token list, and the walk through the list |
| ParserProperties.ParseLoopPrefix | src/interpreterProj.py:806-819 | `parse` keeps statements in source order: earlier statements come first, and whether it fails does not depend on them |
| ParserProperties.LastStatement | src/interpreterProj.py:806-819 | one unfolding of `parse`: a single statement that reads every token is the whole result |
| ParserProperties.ExpressionFirst | src/interpreterProj.py:794-804 | a number, boolean, operator or `or` node spells with a first token of number, boolean, `(` or `!` |
| ParserProperties.ExpressionStatement | src/interpreterProj.py:794-804 | a statement that starts with neither `Defun`, `lambd` nor an identifier is parsed by `expr` |
| ParserProperties.ParseRendered | src/interpreterProj.py:806-819 | round trip: the rendered text of such an expression parses as that one expression statement |
| ParserProperties.DefunRendered | src/interpreterProj.py:742-751 | round trip: the rendered text of `Defun ( name , params ) body` parses as that one definition, the body being a canonical expression or pair. The body is read with the function's own name. |
| ParserProperties.FunctionCallSpelled | src/interpreterProj.py:765-792 | `function_call` reads a call back from its spelling: an argument starting with a name is itself read by `function_call`, any other by `expr` |
| ParserProperties.StmtArgSpelled | src/interpreterProj.py:771-790 | one such argument, followed by `,` or `)`, is read back as itself |
| ParserProperties.StmtArgTailSpelled | src/interpreterProj.py:778-790 | the `,` loop reads the spelled remaining arguments back in order, up to the `)` |
| ParserProperties.StmtCallLexable | src/interpreterProj.py:275-385 | every token of such a call's spelling is one the lexer can produce |
| ParserProperties.CallRendered | src/interpreterProj.py:794-819 | round trip: the rendered text of such a call parses as that one call statement |
| ParserProperties.NegativeLiteralRead | src/interpreterProj.py:572-582 | `factor` reads `(-N)`, with `-` right after the bracket, as the number -N, ending after the `)` |
| ParserProperties.FactorNegative | src/interpreterProj.py:572-573 | `factor` hands `(` followed at once by `-` to the `(-N)` rule |
| ParserProperties.NegativeValue | src/interpreterProj.py:574-582 | the `(-N)` rule on that text gives `Num(-N)`: the sign is applied to the integer read |
| ParserProperties.StatementSpelled | src/interpreterProj.py:794-804 | `statement` reads a spelled definition, expression statement or call statement back as itself, when `;` or the end follows |
| ParserProperties.SemicolonStep | src/interpreterProj.py:810-816 | one round of `parse`'s loop: a statement followed by `;` is appended, and the `;` is eaten |
| ParserProperties.LastJoined | src/interpreterProj.py:810-817 | a last statement, with or without a final `;`, ends `parse` with it appended |
| ParserProperties.JoinedParse | src/interpreterProj.py:808-817 | `parse`'s loop reads statements spelled with `;` between them, and perhaps one more at the end, back as those statements in order |
| ParserProperties.JoinedRendered | src/interpreterProj.py:806-819 | round trip: the rendered text of such a line parses as exactly those statements, in order |
| ParserProperties.JoinedLexable | src/interpreterProj.py:275-385 | every token of such a line is one the lexer can produce |
| ParserProperties.JoinedSemicolon | src/interpreterProj.py:209 | a line of two or more statements, or one ending in `;`, holds a `;` token |
| LexerProperties.RenderedSemicolon | src/interpreterProj.py:209 | a `;` token shows up as `;` in the rendered text |
| ParserProperties.NestedAddRead | src/interpreterProj.py:535-570 | inside an expression, `Add(Add(2,2),2)` is a call with one argument, the pair of `Add(2,2)` and `2` |
| ParserProperties.NestedAddStatement | src/interpreterProj.py:765-792 | the same text as a statement is a call with two arguments, `Add(2,2)` and `2`, because `function_call` does not pair |
| Evaluation.LookupBind | src/interpreterProj.py:931-963 | after `env[k] = v`, looking up `k` gives `v`, and every other key is unchanged |
| Evaluation.FirstAfterBind | src/interpreterProj.py:965-979 | binding keeps the first entry of the dict, unless the dict was empty or its first key was rebound |
| Evaluation.Bind | src/interpreterProj.py:944-952 | a dict entry `k: v`: the dict grows by at most one entry |
| Evaluation.BindOrder | src/interpreterProj.py:944-952 | keys keep their places, a new key goes last, and the dict grows exactly when the key is new |
| Evaluation.Lookup | src/interpreterProj.py:981-982 | `dict.get` gives only values the dict holds: a result other than None is stored under that key |
| Evaluation.LookupBindOthers | src/interpreterProj.py:931-963 | `env[k] = v` leaves the value of every other key as it was |
| Evaluation.FloorDivision | src/interpreterProj.py:850-914 | `//` and `%` satisfy `a == b*q + m`, with the remainder on the divisor's side |
| Evaluation.FloorDivisionUnique | src/interpreterProj.py:850-914 | that equation and range determine quotient and remainder |
| Evaluation.FloorDiv | src/interpreterProj.py:875-882 | `//` rounds down: `b*q <= a < b*q + b` for a positive divisor, and the mirror image for a negative one |
| Evaluation.PyMod | src/interpreterProj.py:884-890 | `%` lies between zero and the divisor, on the divisor's side |
| Evaluation.Arith | src/interpreterProj.py:857-890 | the integer operators of `visit_BinOp`: the quotient rounded down and the remainder on the divisor's side |
| Evaluation.PyEq | src/interpreterProj.py:901-904 | Python's `==`: equal values, or an integer and a boolean with `True` as 1 and `False` as 0 |
| Evaluation.Ordered | src/interpreterProj.py:905-912 | `>`, `<`, `>=`, `<=`: the strict comparison in its direction, or equality for the non-strict forms |
| Evaluation.Binary | src/interpreterProj.py:850-914 | an arithmetic result is an integer computed from two integers, and any other operator's result is a boolean |
| Evaluation.Catch | src/interpreterProj.py:1030-1031 | after `except TypeError` no `TypeError` remains |
| Evaluation.Evaluate | src/interpreterProj.py:1005-1032 | `_evaluate` never lets a `TypeError` out |
| Evaluation.Visit | src/interpreterProj.py:987-1003 | `visit` prints nothing of its own: an expression without a call leaves the printed output empty |
| Evaluation.VisitBinOp | src/interpreterProj.py:850-914 | a value is an integer exactly for an arithmetic operator, and a boolean otherwise, never None. Without a call nothing is printed. |
| Evaluation.VisitUnary | src/interpreterProj.py:916-922 | a value is a boolean, the negation of the operand's value in an empty environment. Without a call nothing is printed. |
| Evaluation.VisitCall | src/interpreterProj.py:931-963 | at the recursion limit a call of a defined function gives no value |
| Evaluation.BindPair | src/interpreterProj.py:943-947 | the pair branch needs two parameters. When it binds, the second parameter holds the value of the pair's right half, and the first, when the two differ, that of its left half. |
| Evaluation.BindArgs | src/interpreterProj.py:948-952 | binding the arguments in order leaves every name that is not a parameter as it was |
| Evaluation.EvaluateOrSeq | src/interpreterProj.py:965-979 | `visit_AdvancedFuncOp` never lets a `TypeError` out |
| EvaluationProperties.BinaryDefinedness | src/interpreterProj.py:850-914 | when each operator gives a value, as an if-and-only-if: arithmetic needs two integers and a non-zero divisor, `&&`/`\|\|` two booleans, an ordering two non-None values, and `==`/`!=` always |
| EvaluationProperties.BinaryRuntimeErrors | src/interpreterProj.py:850-914 | the only `RuntimeError`s are division and modulo by zero, and each occurs exactly then (unless the left operand is a bool) |
| EvaluationProperties.BoolInArithmetic | src/interpreterProj.py:850-914 | a bool in arithmetic is the "Type error" at the end of the chain |
| EvaluationProperties.DivisionIsFloored | src/interpreterProj.py:850-914 | `/` and `%` are Python's floored quotient and remainder |
| EvaluationProperties.PythonEquality | src/interpreterProj.py:850-914 | `True == 1`, `False == 0`, `None` equals only `None`, and equality is reflexive |
| EvaluationProperties.LookupBindAllLast | src/interpreterProj.py:931-963 | a parameter named twice gets the value bound last |
| EvaluationProperties.LookupBindAllAbsent | src/interpreterProj.py:931-963 | a name that is not a parameter keeps what it had |
| EvaluationProperties.BindArgsValues | src/interpreterProj.py:931-963 | arguments that evaluate quietly bind their values in order |
| EvaluationProperties.BindArgsRaises | src/interpreterProj.py:931-963 | the first argument that raises stops the binding with its exception |
| EvaluationProperties.CallErrors | src/interpreterProj.py:931-963 | an unknown name is "not defined", no arguments raises `IndexError`, and a wrong count is an arity error |
| EvaluationProperties.CallBindsArguments | src/interpreterProj.py:931-963 | a quiet call runs the body one level deeper, with each parameter bound to its argument, or hits the recursion limit |
| EvaluationProperties.CallWithPair | src/interpreterProj.py:931-963 | a first argument `a , b` binds the first two parameters whatever the counts. With fewer than two parameters it raises `IndexError`. |
| EvaluationProperties.EvaluateVersusVisit | src/interpreterProj.py:987-1032 | a bare name is None for `_evaluate` but looked up by `visit`. A `FuncOp` is None or a `TypeError`. An `or` node has no visitor. |
| EvaluationProperties.NegationSeesNoLocals | src/interpreterProj.py:916-922 | `!x` visits `x` in an empty environment, so it is always a "Type error" |
| EvaluationProperties.Negation | src/interpreterProj.py:916-922 | `!` negates a boolean, and on a number it is a "Type error" that `_evaluate` prints and turns into None |
| EvaluationProperties.LambdaIsItsBody | src/interpreterProj.py:928-929 | a lambda's parameters are not bound: its body is visited in the enclosing environment |
| EvaluationProperties.BinOpQuiet | src/interpreterProj.py:850-914 | quiet operands give the operator's outcome |
| EvaluationProperties.BinOpRightRaises | src/interpreterProj.py:850-914 | a right operand that raises, after a quiet left one, makes the node raise |
| EvaluationProperties.OrSeqMatchesFirstValue | src/interpreterProj.py:965-979 | a condition `_ op k`, with `k` equal to the first local value, gives that value. The condition itself is never evaluated. |
| EvaluationProperties.OrSeqFallsThrough | src/interpreterProj.py:965-979 | otherwise the form is its `rest`. A condition that needs the first value in an empty environment raises `IndexError`. |
| EvaluationProperties.OrSeqPair | src/interpreterProj.py:975-978 | for any `a` and `b`: `cond or (a , b)` prints `b`'s output and value, then `a`'s output, and gives None |
| EvaluationProperties.OrSeqPairShownRaises | src/interpreterProj.py:975-978 | when `b` raises, that is the result, and `a` does not run |
| EvaluationProperties.OrSeqPairSideRaises | src/interpreterProj.py:975-978 | when `a` raises, it does so after `b`'s value has been printed |
| EvaluationProperties.FactorialComputes | src/interpreterProj.py:1097-1098 | the test suite's `Factorial` body computes n!, printing nothing, for every n >= 1 |
| EvaluationProperties.FactorialCall | src/interpreterProj.py:1097-1098 | `Factorial(n)` on a literal n >= 1 is n! |
| EvaluationProperties.FactorialDiverges | src/interpreterProj.py:1097-1098 | for n <= 0 it only stops at the recursion limit |
| EvaluationProperties.AddComputes | src/interpreterProj.py:1087-1091 | the test suite's `Add` adds its arguments |
| EvaluationProperties.AddCall | src/interpreterProj.py:1087-1091 | `Add(x, y)` on literals is x + y |
| EvaluationProperties.RepeatPrints | src/interpreterProj.py:1118-1120 | `repeat(n)` prints 2 exactly n times, and gives 0 for n = 0 and None otherwise |
| EvaluationProperties.AddAplusAMulBExample | src/interpreterProj.py:1076-1077 | `AddAplusAMulB(4, 2)` is 12 |
| EvaluationProperties.NestedAddExample | src/interpreterProj.py:1087-1091 | `Add(Add(2,2),2)`, read as one pair argument, is 6 |
| EvaluationProperties.ArithmeticExample | src/interpreterProj.py:1099 | `-30/6*5-2` reaches the lexer as `((((0 - 30)/6)*5)-2)`, Python's own unparsing of it, and the tree of that text is -27 |
| Interpreting.Step | src/interpreterProj.py:1005-1032 | a statement adds one result, or stops the loop with the table and results unchanged. A `TypeError` never stops it. |
| Interpreting.Execute | src/interpreterProj.py:1005-1013 | the loop gives at most one result per statement, all of them unless it stopped, and never stops on a `TypeError` |
| Interpreting.ExecuteStopped | src/interpreterProj.py:1008-1013 | once the loop has stopped, later statements change nothing |
| Interpreting.AnswerPrinted | src/interpreterProj.py:1034-1041 | `interpret` prints a `RuntimeError` last exactly when it returns None for it, and otherwise only what the statements printed (`AnswerOf`, `Printed`) |
| Interpreting.Interpreter.constructor | src/interpreterProj.py:840-842 | the global table starts empty |
| Interpreting.Interpreter.VisitFuncDef | src/interpreterProj.py:924-926 | records the definition under its name, replacing any earlier one, and returns "defined successfully" |
| Interpreting.Interpreter.EvaluateStatements | src/interpreterProj.py:1005-1013 | the loop leaves exactly the table, results, printed lines and stopping exception that `Execute` specifies |
| Interpreting.Interpreter.Interpret | src/interpreterProj.py:1034-1041 | `interpret` returns the results, or prints a `RuntimeError` and returns None. An `IndexError` escapes. The table keeps every definition made before the stop. |
| InterpreterProperties.ExecuteDefines | src/interpreterProj.py:924-926 | a result is "defined successfully" exactly for a definition. The table holds the definitions run so far. A stop comes from the next statement, which is an expression. |
| InterpreterProperties.DefineSnoc | src/interpreterProj.py:924-926 | one more definition updates the table by that definition |
| InterpreterProperties.StepJoin | src/interpreterProj.py:1005-1013 | a step after an earlier run extends that run |
| InterpreterProperties.ExecuteAppend | src/interpreterProj.py:1034-1041 | two successful lines in a row, with the table carried over, are the run of their concatenation |
| InterpreterProperties.DefinitionsOnly | src/interpreterProj.py:924-926 | a line of definitions alone always succeeds: every result is "defined successfully" and the table holds them all |
| Session.ReplaceAbsent | src/interpreterProj.py:209-216 | `replace` leaves a text without the pattern unchanged |
| Session.Replace | src/interpreterProj.py:209-216 | a replacement at least as long as the pattern never shortens the text |
| Session.ReplaceHead | src/interpreterProj.py:209-216 | the first character after `replace` is that of the replacement or of the text |
| Session.ReplaceRemovesDoubled | src/interpreterProj.py:213 | replacing `&&` by ` and ` leaves no `&&` |
| Session.ReplaceKeepsNoDoubled | src/interpreterProj.py:215 | replacing `\|\|` creates no `&&` |
| Session.RewriteLogicRemoves | src/interpreterProj.py:209-216 | after the rewriting no `&&` and no `\|\|` is left |
| Session.RewriteLogicAbsent | src/interpreterProj.py:209-216 | a text with neither operator is not rewritten |
| Session.RewriteLogic | src/interpreterProj.py:209-216 | the rewriting never shortens the text |
| Util.HasInfixMeans | src/interpreterProj.py:209 | the `in` test on strings: `sub in s` exactly when `sub` starts at some position of `s` |
| Session.PrepareText | src/interpreterProj.py:203-223 | a text holding `Defun` or `;` is kept as it is, any accepted text is non-empty, and an empty text is a "Syntax error" |
| Session.Program | src/interpreterProj.py:203-223 | a line holding `Defun` or `;` is parsed as typed: parsing succeeds exactly when parsing the typed text does, with the same statements |
| Session.RunText | src/interpreterProj.py:1261-1264 | a line that does not lex or parse changes nothing. Otherwise the interpreter's table, answer and output are those of running the parsed statements. |
| Session.DefinitionLine | src/interpreterProj.py:1261-1263 | a definition in canonical form, on its own line, parses to that one definition |
| Session.SeparatedLine | src/interpreterProj.py:203-223 | statements written with `;` between them, or ending in `;`, are taken as typed and parse back to those statements, in order |
| Session.ExpressionLine | src/interpreterProj.py:1261-1263 | an expression in canonical form parses back to itself, when the reordering gives the rewritten text back |
| Exercises.FilterMembers | src/partb.py:55 | `filter` keeps exactly the elements that satisfy the predicate |
| Exercises.FoldLeftSnoc | src/partb.py:13 | `reduce` folds from the left: one more element applies the function once more, at the end (`FoldLeft`) |
| Exercises.Filter | src/partb.py:55 | `filter` never lengthens the list |
| Exercises.Reverse | src/partb.py:50 | `reversed(s)` and `s[::-1]` have the length of `s` |
| Exercises.Range | src/partb.py:8 | `range(lo, hi)` has `hi - lo` elements when `lo < hi` and none otherwise |
| Exercises.Reduce | src/partb.py:13 | `reduce` without an initial value fails exactly on an empty sequence |
| Exercises.ReverseAt | src/partb.py:60 | `s[::-1]` has the i-th element from the end at position i |
| Exercises.ReverseSnoc | src/partb.py:50 | `reversed(q + [x])` is `x` followed by `reversed(q)` |
| Exercises.FibInner | src/partb.py:6-7 | from a non-negative, non-decreasing pair the result is at least `a`, and at least `b` after one shift |
| Exercises.FibList | src/partb.py:5-8 | `fib(n)` has one non-negative entry per element of `range(n)` |
| Exercises.FibInnerShifts | src/partb.py:6-7 | shifting the pair (F k, F (k+1)) x times gives F (k+x) |
| Exercises.FibListIsFibonacci | src/partb.py:5-8 | `fib(n)` is the first n Fibonacci numbers, and empty for n <= 0 |
| Exercises.FoldJoin | src/partb.py:13 | the fold adds a space and then the joined words |
| Exercises.ConcatWithSpace | src/partb.py:12-13 | fails exactly on an empty list |
| Exercises.ConcatIsJoin | src/partb.py:12-13 | `concat_with_space` fails exactly on an empty list, and otherwise joins the words with single spaces |
| Exercises.SplitJoin | src/partb.py:12-13 | splitting joined words on spaces gives them back when no word holds a space |
| Exercises.ConcatRoundTrip | src/partb.py:12-13 | `concat_with_space` is undone by splitting on spaces |
| Exercises.FoldSquares | src/partb.py:20-29 | the fold adds the squares of the even elements |
| Exercises.CumulativeSumOfSquares | src/partb.py:17-33 | one entry per sublist, and 0 for an empty sublist |
| Exercises.CumulativeIsSumOfEvenSquares | src/partb.py:17-33 | each entry is the sum of the squares of its sublist's even elements, one entry per sublist |
| Exercises.FoldAdd | src/partb.py:55 | folding `+` adds the sum |
| Exercises.OneLineSumSquares | src/partb.py:54-55 | fails exactly when no element is even |
| Exercises.OneLineIsCumulative | src/partb.py:54-55 | the one-line version fails exactly when no element is even, and otherwise equals the cumulative version |
| Exercises.FoldMul | src/partb.py:38-42 | folding `*` multiplies by the product |
| Exercises.CumulativeOperation | src/partb.py:37-38 | the returned function fails exactly on an empty sequence |
| Exercises.Factorial | src/partb.py:42 | `factorial` fails exactly on an empty sequence |
| Exercises.ProductRange | src/partb.py:42 | k! times the product of k+1..n is n! |
| Exercises.FactorialIsProduct | src/partb.py:37-42 | `factorial` fails exactly on an empty sequence, is the product otherwise, and `factorial(range(1, n+1))` is n! |
| Exercises.TowerTop | src/partb.py:46-50 | replacing the two top elements x, t of a tower by x ** t leaves the tower unchanged |
| Exercises.FoldTower | src/partb.py:50 | the fold over the reversed prefix builds the tower |
| Exercises.RaiseFoldStarted | src/partb.py:50 | once the fold has a first value it never reports an empty sequence |
| Exercises.Exponentiation | src/partb.py:46-50 | `exponentiation` reports an empty sequence exactly for an empty sequence |
| Exercises.ExponentiationAfterFloat | src/partb.py:46-50 | once `(-2) ** -1` has left the integers, `exponentiation([0, -2, -1])` is reported as the non-integral case |
| Exercises.ExponentiationIsTower | src/partb.py:46-50 | on non-negative integers `exponentiation` is the power tower read from the right, and it fails exactly on an empty sequence |
| Exercises.FoldCount | src/partb.py:60 | the fold counts the palindromes |
| Exercises.CountPalindromesPerSublist | src/partb.py:59-60 | one count per sublist, and 0 for an empty sublist |
| Exercises.CountsArePalindromes | src/partb.py:59-60 | each count is the number of palindromes in its sublist, one count per sublist |
| Exercises.PalindromeMirror | src/partb.py:60 | `s == s[::-1]` exactly when each character equals its mirror |
| Exercises.NoDivisorFromMeans | src/partb.py:77 | the `all(...)` over `range(2, int(x**0.5)+1)` means that no i with i*i <= x divides x |
| Exercises.SmallDivisor | src/partb.py:77 | a proper divisor leaves one no larger than the square root |
| Exercises.NoDivisorIsPrime | src/partb.py:77 | for x >= 2 the square-root test holds exactly for primes |
| Exercises.KeepAsWrittenMeans | src/partb.py:77 | the filter as written keeps exactly 1 and the primes |
| Exercises.InsertKeeps | src/partb.py:77 | inserting into a non-increasing list keeps it non-increasing, and adds exactly that element |
| Exercises.Insert | src/partb.py:77 | one insertion step of `sorted(reverse=True)` adds exactly one element |
| Exercises.SortDescending | src/partb.py:77 | `sorted(reverse=True)` keeps the length |
| Exercises.SortDescendingSorts | src/partb.py:77 | `sorted(..., reverse=True)` gives a non-increasing permutation of its input |
| Exercises.PrimesSortedDescAsWritten | src/partb.py:76-77 | the code as written returns at most as many elements as it is given |
| Exercises.PrimesSortedDesc | src/partb.py:76-77 | the same for the corrected filter |
| Exercises.PrimesAsWrittenKeepsOne | src/partb.py:76-77 | the code as written returns, in non-increasing order and with their multiplicities, the inputs that are 1 or prime |
| Exercises.PrimesExampleAsWritten | src/partb.py:132-134 | on the example in `main` the code returns `[29, 23, 13, 7, 5, 1]` |
| Exercises.PrimesSortedDescIsPrimes | src/partb.py:76-77 | the corrected function returns, in non-increasing order and with their multiplicities, exactly the inputs that are prime |
| Exercises.PrimesExample | src/partb.py:132-134 | the corrected function gives the expected `[29, 23, 13, 7, 5]` |
| Exercises.FilterExampleAsWritten | src/partb.py:132-134 | the filter as written keeps `[5, 23, 29, 1, 7, 13]` of the example |
| Exercises.FilterExample | src/partb.py:132-134 | the prime filter keeps `[5, 23, 29, 7, 13]` |
| Exercises.SortExample | src/partb.py:132-134 | the sort of both filtered lists |
| Exercises.CumulativeExample | src/partb.py:109-114 | `[[1,2,3,4],[10,15,20,25],[2,4,6,8]]` gives `[20, 500, 120]` |
| Exercises.FactorialExample | src/partb.py:117-118 | `factorial(range(1, 6))` is 120 |
| Exercises.ExponentiationExample | src/partb.py:119-120 | `exponentiation([2, 3, 4])` is 2 ** 81 |
| Exercises.OneLineExample | src/partb.py:123-124 | `one_line_sum_squares([1..6])` is 56 |
| Exercises.PalindromesFirst | src/partb.py:127-129 | the first sublist of the example holds 2 palindromes |
| Exercises.PalindromesSecond | src/partb.py:127-129 | the second holds 1 |
| Exercises.PalindromesThird | src/partb.py:127-129 | the third holds 2 |

## Left out

- `OrderParanthText`, `recurse` and `search_expr` are not part of this model. `OrderParanthText` becomes the parameter `order` of `Session.PrepareText`. It is a function from text to an optional text, with None where the source returns None or raises.
- The interactive `main` of both files is not modelled: prompts, the choice of test mode, printing the results line by line, and catching and printing exceptions. What one input line does is `Session.RunText`.
- `print` is not modelled as I/O. Printed lines are kept, in order, as a list of `Line`s in the record of a run and in `Interpreter.output`.
- Python's recursion limit: a nesting depth `fuel`, fixed per interpreter, stands for it. No lemma relates different fuel values. The recursive-descent parser also raises `RecursionError` on deeply nested brackets, which the `except Exception` of `parse` (src/interpreterProj.py:818-819) turns into "Syntax error". The parsing functions of the model have no depth bound, so they read such text.
- Exercises.FibListIsFibonacci: holds for every n. `fib_inner` recurses x levels deep (src/partb.py:6-7), so Python raises `RecursionError` once n nears its default limit of 1000. The exercises have no recursion limit in the model.
- The texts of Python's own `TypeError` messages (wrong argument count of `visit_FuncOp`, operations on unsupported types) are not reproduced. Kinds of error stand for them.
- The branch of `visit_FuncCall` for an argument list that is a `BinOp` (src/interpreterProj.py:954-959) is omitted. The parser always builds a call's arguments as a list, so that branch never runs.
- `interpret`'s test `ans is None or ans == ""` (src/interpreterProj.py:1036-1037) never fires. `_evaluate` on a list returns a list, so the model has no case for it.
- A lexer that loops for ever, on a `|`, `&` or `=` followed by a different character, is the outcome `Stuck`. In the parser this becomes the error `Hang`.
- `int(x**0.5)` in `primes_sorted_desc` works in floating point. The model reads its bound as the largest i with i*i <= x, which is what it gives for the integers the code sees.
- Exercises.ExponentiationIsTower: stated for non-negative integers only. A negative exponent makes Python's `**` return a float, and the model gives the error `NonIntegral` there. `NonIntegral` stands for every outcome after the first float, a later `ZeroDivisionError` from a zero base included: `exponentiation([0, -2, -1])` computes `(-2) ** -1 = -0.5` and then raises on `0 ** -0.5`, and the model gives `NonIntegral` (`Exercises.ExponentiationAfterFloat`). Floating-point arithmetic is not modelled.
- Session.RewriteLogic: the source rewrites `&&` and `||` in the iteration order of a Python set. The model does `&&` first. The two rewrites touch disjoint characters, and `Session.ReplaceKeepsNoDoubled` shows that neither creates the other.
- Session.ExpressionLine: needs the hypothesis that `order` gives the rewritten text back, because `OrderParanthText` is outside the model.
- The `[2, 1, 2]` example of `count_palindromes_per_sublist` is proved one sublist at a time: `Exercises.PalindromesFirst`, `PalindromesSecond` and `PalindromesThird`, together with `Exercises.CountsArePalindromes`.
- `str.isdigit`, `str.isalpha` and `str.isalnum` are taken on ASCII characters only. `str.isspace` covers the characters Python counts as white space.
- `__repr__` of the tokens and tree nodes, and the helpers `ifLeftIsNum`, `ifRightIsNum` and `Lexer.getNextChar`, which nothing calls, are not modelled.
- ParserProperties.FactorSpelled: a call or pair inside brackets is not covered by the spelling lemmas, which write calls and pairs without brackets. Two cases from the test suite are affected. The first is the `(repeat(n-1) , Add(1,1))` of `repeat`. The second is `Add(Add(2,2),2)`, which `OrderParanthText` rewrites to `(Add((Add(2,2)),2))`. `ParserProperties.NestedAddRead` reads the pair from the text without those brackets.
- Parsing.Factor and the other parsing functions state in their own contracts that they keep the text, consume input and which kind of node they build. What they read is stated by the lemmas of `ParserProperties`, for text written out with one space between tokens: canonical expressions, pairs `call , e` where `expr` reads them (call arguments, lambda and definition bodies), statement-level calls and definitions. The brackets of `Defun` are checked by type only, the same as in the source, so the spelling uses `(` and `)`.

## Findings

| source | as written | input that shows it | evidently intended | confidence | as-written member | corrected member |
|---|---|---|---|---|---|---|
| src/partb.py:77 | the filter keeps `x >= 1` with no divisor up to the square root, and so keeps 1 | `[10, 5, 15, 23, 29, 8, 1, 7, 13]` gives `[29, 23, 13, 7, 5, 1]` | the primes only, `[29, 23, 13, 7, 5]`, as the expected output at src/partb.py:134 says | not executed | Exercises.PrimesExampleAsWritten | Exercises.PrimesSortedDescIsPrimes |
