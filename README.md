# klox core in Dafny

A verified model of the front end and expression evaluator of klox, a Kotlin
implementation of the Lox language. The model covers the following parts:

- **Scanner**: the `Scanner` class builds the token list one character at a time. It
  follows the `when` of `scanToken` arm by arm: single-character tokens, `!`, `=`, `<`
  and `>` with an optional `=`, `//` comments, blanks, line breaks and "Unexpected
  character.". The functions `StepAt` and `ScanFrom` say what one step and the whole
  scan produce. The class is proved to produce exactly that.
- **Parser**: the `Parser` class runs the recursive descent of Parser.kt on a mutable
  cursor. It covers comma, assignment, ternary, the four binary levels, unary with its
  error production, primary, the statements, `declaration` with recovery, and `parse`.
  A `ParseError` is a `None` result. Every method is proved to return what the pure
  grammar functions in module `Grammar` return. That covers the node built, the cursor
  position where it stops, and the syntax errors reported through `Lox.error`, in order.
- **Grammar facts**: lemmas about the grammar functions:
  - every tree the parser builds respects precedence and left associativity;
  - the error productions do not throw;
  - the parses of the inputs of the parser tests.
- **Interpreter**: `Evaluate` is the visitor of Interpreter.kt over literals,
  groupings, unary, binary and ternary nodes. It covers truthiness, equality as
  Kotlin's boxed `==`, the type checks, division by zero and `stringify`. A raised
  `RuntimeError` is a `Failure`.
- **Environment and LoxFunction**: `Environment` is a class whose declared-name set and
  value map are updated in place and whose `enclosing` link forms a chain. Each
  operation is specified against the chain's `Frames()`. `LoxFunction.Call` creates
  the call's environment and binds the parameters in a loop, as the source does.
- **AstPrinter**: `Print`, with proofs of its layout and of balanced parentheses.
- **The `Lox` object**: the `hadError` and `hadRuntimeError` flags and the error stream,
  with the exact text of every report. It also covers the gate in `run` that skips the
  interpreter after a syntax error, and the prompt loop clearing `hadError`.

Doubles are 64-bit patterns (`Numbers.Number`). The model decides the two tests the
interpreter makes itself: the zero test of the division check and `Double.equals`.
Arithmetic, comparison and `Double.toString` are supplied by a `Host` record of
functions.

## Model

| member | source | states |
|---|---|---|
| Lexer.CommentEnd | app/src/main/kotlin/Scanner.kt:41-44 | a `//` comment ends at the next line break, which it does not consume, or at the end; nothing before that point is a line break |
| Lexer.CountNewlines | app/src/main/kotlin/Scanner.kt:52 | the number of `\n` characters, the lines `line++` counts |
| Lexer.Emit | app/src/main/kotlin/Scanner.kt:72-76 | the step `addToken(kind)` takes: the lexeme `source[start..current]`, a null literal, the current line |
| Lexer.WithEqual | app/src/main/kotlin/Scanner.kt:37-40 | `match('=')` choosing the two-character or the one-character kind |
| Lexer.Classify | app/src/main/kotlin/Scanner.kt:26-54 | the arm of the `when` each character takes |
| Lexer.StepAt | app/src/main/kotlin/Scanner.kt:24-55 | one `scanToken` consumes at least one character; the line grows by exactly the line breaks consumed; an emitted token's lexeme is the text consumed, with a null literal, on the starting line, never EOF; an unexpected character emits nothing and consumes one character |
| Lexer.OperatorCharacters | app/src/main/kotlin/Scanner.kt:37-40 | exactly `!`, `=`, `<`, `>` look ahead for `=` |
| Lexer.TwoCharacterOperator | app/src/main/kotlin/Scanner.kt:37-40 | an operator followed by `=` becomes one two-character token (`!=`, `==`, `<=`, `>=`) |
| Lexer.OneCharacterOperator | app/src/main/kotlin/Scanner.kt:37-40 | otherwise the operator is a one-character token and the next character is left alone |
| Lexer.LineComment | app/src/main/kotlin/Scanner.kt:41-44 | `//` emits nothing, keeps the line and stops before the line break |
| Lexer.LoneSlash | app/src/main/kotlin/Scanner.kt:41-47 | a `/` not followed by `/` is a one-character SLASH token |
| Lexer.Whitespace | app/src/main/kotlin/Scanner.kt:49-52 | blanks emit nothing; only `\n` counts a line |
| Lexer.UnexpectedCharacters | app/src/main/kotlin/Scanner.kt:53 | a step reports exactly when the character has no arm of the `when`; such a character is skipped alone, on the same line, with no token |
| Lexer.UnexpectedLiteralCharacters | app/src/main/kotlin/Scanner.kt:53 | digits, letters, quotes, `?` and `:` are among them |
| Lexer.StepNewlines | app/src/main/kotlin/Scanner.kt:37-48 | after the first character a step consumes no line break |
| Lexer.ScanFrom | app/src/main/kotlin/Scanner.kt:14-18 | the loop of `scanTokens`: each step's token and report, in order, until the end of the source; its properties are the ScanFrom lemmas below |
| Lexer.ErrorOf | app/src/main/kotlin/Scanner.kt:53 | the line `Lox.error` receives for an unexpected character |
| Lexer.NoNewlines | app/src/main/kotlin/Scanner.kt:52 | text without a line break counts no lines |
| Lexer.CountNewlinesAppend | app/src/main/kotlin/Scanner.kt:52 | line counting is additive over concatenation |
| Lexer.ScanFromLine | app/src/main/kotlin/Scanner.kt:14-18 | the final line of a scan is the start line plus the line breaks scanned |
| Lexer.ScanFromTokens | app/src/main/kotlin/Scanner.kt:14-18 | at most one token per character, none is EOF, all literals are null |
| Lexer.ScanTokenLines | app/src/main/kotlin/Scanner.kt:14-18 | every token's line lies between the start line and the final line |
| Lexer.ScanTokenOrder | app/src/main/kotlin/Scanner.kt:14-18 | token lines never decrease along the list |
| Lexer.InOrderPrepend | app/src/main/kotlin/Scanner.kt:73-76 | appending one token on the current line before later tokens keeps lines in order |
| Lexer.ScanErrorLines | app/src/main/kotlin/Scanner.kt:53 | every "Unexpected character." line lies between the start and final lines |
| Lexer.ScanTurn | app/src/main/kotlin/Scanner.kt:15-18 | one loop turn moves one step's output from what is left to what was produced |
| Lexer.ScanFinished | app/src/main/kotlin/Scanner.kt:15 | at the end of the source what was produced is everything |
| Lexer.EofToken | app/src/main/kotlin/Scanner.kt:20 | the EOF token: empty lexeme, null literal, the final line |
| Lexer.Tokenize | app/src/main/kotlin/Scanner.kt:14-22 | the list ends with one EOF token on line 1 plus the number of line breaks, has no other EOF, has at most one token per character plus EOF, and its lines are at least 1 and never decrease |
| Lexer.UnexpectedReports | app/src/main/kotlin/Scanner.kt:53 | one report per unexpected character, in order |
| Lexer.UnexpectedReportsAppend | app/src/main/kotlin/Scanner.kt:53 | reports of consecutive steps concatenate |
| Lexer.UnexpectedStep | app/src/main/kotlin/Lox.kt:59-66 | the error channel after one more step is the one for all reported lines |
| Lexer.Scanner.constructor | app/src/main/kotlin/Scanner.kt:8-12 | empty token list, cursor 0, line 1 |
| Lexer.Scanner.IsAtEnd | app/src/main/kotlin/Scanner.kt:70 | the cursor has reached the end of the source |
| Lexer.Scanner.Peek | app/src/main/kotlin/Scanner.kt:65-68 | the character under the cursor before the end |
| Lexer.Scanner.Advance | app/src/main/kotlin/Scanner.kt:71 | returns the character under the cursor and moves one further |
| Lexer.Scanner.Match | app/src/main/kotlin/Scanner.kt:57-63 | consumes one character exactly when it is the expected one, never at the end |
| Lexer.Scanner.AddToken | app/src/main/kotlin/Scanner.kt:72 | appends the current lexeme with a null literal on the current line |
| Lexer.Scanner.AddTokenWithLiteral | app/src/main/kotlin/Scanner.kt:73-76 | appends `source[start..current]` with the literal on the current line |
| Lexer.Scanner.AddOperator | app/src/main/kotlin/Scanner.kt:37-40 | appends what `WithEqual` describes and moves the cursor past it |
| Lexer.Scanner.SkipComment | app/src/main/kotlin/Scanner.kt:44 | the loop stops exactly at `CommentEnd` |
| Lexer.Scanner.ScanToken | app/src/main/kotlin/Scanner.kt:24-55 | the cursor, line, tokens and error channel after one call are those `StepAt` gives |
| Lexer.Scanner.ScanTokens | app/src/main/kotlin/Scanner.kt:14-22 | returns the tokens of `ScanFrom` plus EOF on the final line, and reports exactly the scan's unexpected-character lines |
| Grammar.Advanced | app/src/main/kotlin/Parser.kt:196-199 | `advance` never moves past EOF |
| Grammar.AtEnd | app/src/main/kotlin/Parser.kt:201 | the token under the cursor is EOF |
| Grammar.Check | app/src/main/kotlin/Parser.kt:191-194 | the current token has the kind, never at EOF |
| Grammar.Matches | app/src/main/kotlin/Parser.kt:174-183 | the current token has one of the kinds, never at EOF |
| Grammar.Operand | app/src/main/kotlin/Parser.kt:62-141 | each binary level parses its operands at the next tighter level |
| Grammar.Operators | app/src/main/kotlin/Parser.kt:62-141 | the token kinds each binary level's `match` accepts: `,`; `!=` `==`; `>` `>=` `<` `<=`; `-` `+`; `/` `*` |
| Grammar.ParseExpr | app/src/main/kotlin/Parser.kt:51-172 | a precedence function stops within the list and consumes a token whenever it succeeds |
| Grammar.Threw | app/src/main/kotlin/Parser.kt:205-208 | a thrown `ParseError`, after the errors reported so far |
| Grammar.ParseBinary | app/src/main/kotlin/Parser.kt:62-71 | `comma`, `equality`, `comparison`, `term` and `factor`: first operand, then the operator loop |
| Grammar.ParseBinaryRest | app/src/main/kotlin/Parser.kt:100-109 | the operator loop stays within the list and never loses an error |
| Grammar.ParseAssignment | app/src/main/kotlin/Parser.kt:73-86 | `assignment`, right-recursive; an Assign node only over a variable |
| Grammar.ParseTernary | app/src/main/kotlin/Parser.kt:88-98 | `ternary`, with its parts at equality level |
| Grammar.ParseBranches | app/src/main/kotlin/Parser.kt:90-95 | the part after `?`, with "Expected colon in ternary expression." |
| Grammar.ParseUnary | app/src/main/kotlin/Parser.kt:143-154 | `unary` with the leading-operator error production |
| Grammar.ParsePrimary | app/src/main/kotlin/Parser.kt:156-172 | `primary` consumes a token whenever it succeeds |
| Grammar.ParseGroup | app/src/main/kotlin/Parser.kt:165-169 | a parenthesised expression and its closing `)` |
| Grammar.Consume | app/src/main/kotlin/Parser.kt:185-189 | succeeds exactly when `check` does, advancing one; otherwise reports at the current token and consumes nothing |
| Grammar.ParseTerminated | app/src/main/kotlin/Parser.kt:30-49 | a successful statement ends just after a `;` |
| Grammar.ParseStatement | app/src/main/kotlin/Parser.kt:25-28 | a successful statement consumes at least one token |
| Grammar.ParseVarDeclaration | app/src/main/kotlin/Parser.kt:36-43 | a successful declaration is a `Var` named by an identifier token |
| Grammar.ParseInitializer | app/src/main/kotlin/Parser.kt:38-39 | no initializer exactly when no `=` follows, and then nothing is consumed or reported |
| Grammar.ParseDeclarationBody | app/src/main/kotlin/Parser.kt:53-55 | the `try` block consumes a token whenever it succeeds |
| Grammar.Synchronize | app/src/main/kotlin/Parser.kt:210-222 | recovery (corrected loop) moves forward unless at EOF and stops at the first synchronisation point after the token it skips |
| Grammar.SkipToSyncPoint | app/src/main/kotlin/Parser.kt:212-219 | the first synchronisation point at or after the cursor |
| Grammar.SyncPoint | app/src/main/kotlin/Parser.kt:212-219 | where recovery stops: at EOF, just after a `;`, or before `class`, `for`, `fun`, `if`, `print`, `return`, `var` or `while` |
| Grammar.SynchronizeAsWritten | app/src/main/kotlin/Parser.kt:210-222 | the recovery loop as written, which never advances inside the loop: it returns only when the token after the error is already a synchronisation point (the as-written half of the finding below) |
| Grammar.ParseDeclaration | app/src/main/kotlin/Parser.kt:52-60 | `declaration` with the corrected recovery of "## Findings": it always makes progress |
| Grammar.ParseFrom | app/src/main/kotlin/Parser.kt:11-19 | the `parse` loop with the corrected recovery of "## Findings": fewer statements than tokens |
| Grammar.ParseProgram | app/src/main/kotlin/Parser.kt:11-19 | `parse` from the first token, with the corrected recovery |
| GrammarFacts.OperatorsHaveTheirLevelsRank | app/src/main/kotlin/Parser.kt:100-141 | each operator is parsed at exactly one level |
| GrammarFacts.ParsePrecedence | app/src/main/kotlin/Parser.kt:62-172 | every tree a precedence function builds is well nested and no looser than its level |
| GrammarFacts.BinaryPrecedence | app/src/main/kotlin/Parser.kt:100-141 | the same for the binary levels |
| GrammarFacts.AssignmentPrecedence | app/src/main/kotlin/Parser.kt:73-86 | the same for `assignment` |
| GrammarFacts.TernaryPrecedence | app/src/main/kotlin/Parser.kt:88-98 | the same for `ternary` |
| GrammarFacts.BranchesPrecedence | app/src/main/kotlin/Parser.kt:91-93 | both branches are equality-level trees |
| GrammarFacts.UnaryPrecedence | app/src/main/kotlin/Parser.kt:143-154 | the same for `unary` |
| GrammarFacts.PrimaryPrecedence | app/src/main/kotlin/Parser.kt:156-172 | a primary is an atom or a grouping |
| GrammarFacts.BinaryRestPrecedence | app/src/main/kotlin/Parser.kt:102-106 | the operator loop keeps the tree well nested, folding to the left |
| GrammarFacts.BinaryRestAccumulates | app/src/main/kotlin/Parser.kt:102-106 | errors reported before the loop are passed through unchanged, ahead of its own |
| GrammarFacts.LeftAssociative | app/src/main/kotlin/Parser.kt:122-130 | `a - b - c` can only parse as `(a - b) - c` |
| GrammarFacts.TernaryOperandsAreEqualities | app/src/main/kotlin/Parser.kt:88-98 | a ternary's three parts hold no ternary, assignment or comma outside parentheses |
| GrammarFacts.InvalidAssignmentTargetKeepsParsing | app/src/main/kotlin/Parser.kt:73-86 | a non-variable target reports "Invalid assignment target." at `=` after the value's errors, does not throw, and yields the target |
| GrammarFacts.LeadingOperatorKeepsParsing | app/src/main/kotlin/Parser.kt:149-153 | a leading binary operator reports "Binary operator should include both terms." and parses a primary after it |
| GrammarFacts.PrimaryRejects | app/src/main/kotlin/Parser.kt:171 | at a token that starts no operand, `primary` throws "Expect expression." and consumes nothing |
| GrammarFacts.Tighter | app/src/main/kotlin/Parser.kt:62-154 | every level calls the next tighter one |
| GrammarFacts.Settle | app/src/main/kotlin/Parser.kt:62-154 | when no level in between can continue, a looser level returns what a tighter one parsed |
| GrammarFacts.SynchronizeAsWrittenAgrees | app/src/main/kotlin/Parser.kt:210-222 | whenever the loop as written returns, it stops where the corrected loop stops |
| GrammarFacts.SynchronizeAsWrittenHangs | app/src/main/kotlin/Parser.kt:210-222 | the loop as written fails to return exactly when recovery must skip more than one token |
| GrammarFacts.StrayParenthesisHangs | app/src/main/kotlin/Parser.kt:210-222 | on `) 2;` the loop as written spins; the corrected one reports one error and parses nothing |
| GrammarFacts.Kinds | app/src/main/kotlin/Token.kt:7-13 | the kinds of a token list, position by position |
| GrammarFacts.LiteralOperand | app/src/main/kotlin/Parser.kt:161 | a number or string token is a literal operand |
| GrammarFacts.TrueOperand | app/src/main/kotlin/Parser.kt:158 | `true` is the literal true |
| GrammarFacts.BinaryStep | app/src/main/kotlin/Parser.kt:102-106 | one turn of the operator loop folds the next operand in |
| GrammarFacts.BinaryFromOperand | app/src/main/kotlin/Parser.kt:62-63 | a binary level hands its first operand to its loop |
| GrammarFacts.BinaryStop | app/src/main/kotlin/Parser.kt:64 | the loop stops at a token that is none of its operators |
| GrammarFacts.BinaryLevelExpr | app/src/main/kotlin/Parser.kt:62-141 | at a binary level the precedence function is the binary one |
| GrammarFacts.SingleExpressionStatement | app/src/main/kotlin/Parser.kt:11-19 | an expression, `;` and EOF parse as one expression statement |
| GrammarFacts.CommaLeftOperand | app/src/test/kotlin/me/fornever/klox/ExprParserTest.kt:13-29 | `2 + 2` before the comma is one sum |
| GrammarFacts.CommaRightOperand | app/src/test/kotlin/me/fornever/klox/ExprParserTest.kt:13-29 | `2 * 2` after the comma is one product |
| GrammarFacts.CommaOfTwo | app/src/main/kotlin/Parser.kt:62-71 | two operands around `,` before `;` form one comma node |
| GrammarFacts.CommaExpression | app/src/test/kotlin/me/fornever/klox/ExprParserTest.kt:13-29 | `2 + 2, 2 * 2` is a comma of a sum and a product |
| GrammarFacts.CommaExample | app/src/test/kotlin/me/fornever/klox/ExprParserTest.kt:13-29 | `2 + 2, 2 * 2;` is one statement with that tree and no errors |
| GrammarFacts.TernaryParts | app/src/test/kotlin/me/fornever/klox/ExprParserTest.kt:31-40 | the three parts of `true ? 1 : 0` are literals |
| GrammarFacts.TernaryBranchesParse | app/src/test/kotlin/me/fornever/klox/ExprParserTest.kt:31-40 | `1 : 0` are the two branches |
| GrammarFacts.TernaryLevelParse | app/src/test/kotlin/me/fornever/klox/ExprParserTest.kt:31-40 | `true ? 1 : 0` is a ternary at ternary level |
| GrammarFacts.TernaryExpression | app/src/test/kotlin/me/fornever/klox/ExprParserTest.kt:31-40 | and the same at comma level |
| GrammarFacts.TernaryExample | app/src/test/kotlin/me/fornever/klox/ExprParserTest.kt:31-40 | `true ? 1 : 0;` is one statement with that tree and no errors |
| GrammarFacts.LeadingPlusExample | app/src/test/kotlin/me/fornever/klox/ExprParserTest.kt:42-48 | `+2;` is one statement `2` and one error at the `+` |
| Parsing.BinaryRestStep | app/src/main/kotlin/Parser.kt:102-106 | one turn of the operator loop, throwing or folding |
| Parsing.ParseFromStep | app/src/main/kotlin/Parser.kt:13-17 | one turn of the `parse` loop keeps a parsed declaration and logs its errors |
| Parsing.Parser.constructor | app/src/main/kotlin/Parser.kt:9-23 | the cursor starts at 0 |
| Parsing.Parser.IsAtEnd | app/src/main/kotlin/Parser.kt:201 | the token under the cursor is EOF |
| Parsing.Parser.Peek | app/src/main/kotlin/Parser.kt:202 | the token under the cursor |
| Parsing.Parser.Previous | app/src/main/kotlin/Parser.kt:203 | the token before the cursor |
| Parsing.Parser.CheckKind | app/src/main/kotlin/Parser.kt:191-194 | `check`: false at EOF, else whether the current token has the kind |
| Parsing.Parser.Advance | app/src/main/kotlin/Parser.kt:196-199 | moves to `Advanced` and returns the token passed |
| Parsing.Parser.Match | app/src/main/kotlin/Parser.kt:174-183 | consumes one token exactly when `Matches` |
| Parsing.Parser.Consume | app/src/main/kotlin/Parser.kt:185-189 | result, cursor and report are those of `Grammar.Consume` |
| Parsing.Parser.Expression | app/src/main/kotlin/Parser.kt:51 | agrees with `ParseBinary` at comma level, reports included |
| Parsing.Parser.Precedence | app/src/main/kotlin/Parser.kt:62-172 | agrees with `ParseExpr` |
| Parsing.Parser.Binary | app/src/main/kotlin/Parser.kt:62-141 | agrees with `ParseBinary` |
| Parsing.Parser.OperatorLoop | app/src/main/kotlin/Parser.kt:64-68 | the `while (match(...))` loop agrees with `ParseBinaryRest` |
| Parsing.Parser.RightOperand | app/src/main/kotlin/Parser.kt:65-67 | one turn of that loop |
| Parsing.Parser.Assignment | app/src/main/kotlin/Parser.kt:73-86 | agrees with `ParseAssignment` |
| Parsing.Parser.Ternary | app/src/main/kotlin/Parser.kt:88-98 | agrees with `ParseTernary` |
| Parsing.Parser.Branches | app/src/main/kotlin/Parser.kt:91-94 | agrees with `ParseBranches` |
| Parsing.Parser.ElseBranch | app/src/main/kotlin/Parser.kt:92-93 | the `:` and the else part |
| Parsing.Parser.Unary | app/src/main/kotlin/Parser.kt:143-154 | agrees with `ParseUnary` |
| Parsing.Parser.PrefixOperator | app/src/main/kotlin/Parser.kt:144-148 | `!` or `-` and its operand |
| Parsing.Parser.LeadingOperator | app/src/main/kotlin/Parser.kt:149-153 | the error production |
| Parsing.Parser.Primary | app/src/main/kotlin/Parser.kt:156-172 | agrees with `ParsePrimary` |
| Parsing.Parser.Group | app/src/main/kotlin/Parser.kt:165-169 | agrees with `ParseGroup` |
| Parsing.Parser.PrintStatement | app/src/main/kotlin/Parser.kt:30-34 | agrees with `ParseTerminated` for `print` |
| Parsing.Parser.ExpressionStatement | app/src/main/kotlin/Parser.kt:45-49 | agrees with `ParseTerminated` |
| Parsing.Parser.Statement | app/src/main/kotlin/Parser.kt:25-28 | agrees with `ParseStatement` |
| Parsing.Parser.VarDeclaration | app/src/main/kotlin/Parser.kt:36-43 | agrees with `ParseVarDeclaration` |
| Parsing.Parser.Initializer | app/src/main/kotlin/Parser.kt:38-39 | agrees with `ParseInitializer` |
| Parsing.Parser.Declaration | app/src/main/kotlin/Parser.kt:52-60 | agrees with `ParseDeclaration`, recovery included, using the corrected `synchronize` of "## Findings" |
| Parsing.Parser.Synchronize | app/src/main/kotlin/Parser.kt:210-222 | moves to `Grammar.Synchronize` (the corrected loop) |
| Parsing.Parser.Parse | app/src/main/kotlin/Parser.kt:11-19 | returns `ParseFrom`'s statements and reports exactly its errors, using the corrected `synchronize` of "## Findings" |
| Diagnostics.DigitChar | app/src/main/kotlin/Lox.kt:64 | a decimal digit |
| Diagnostics.NatText | app/src/main/kotlin/Lox.kt:64 | decimal text: digits only, no leading zero |
| Diagnostics.IntText | app/src/main/kotlin/Lox.kt:64 | the text of an `Int` in a string template is not empty |
| Diagnostics.NatTextRoundTrip | app/src/main/kotlin/Lox.kt:64 | the digits read back as the number |
| Diagnostics.ReadNegative | app/src/main/kotlin/Lox.kt:64 | a minus sign negates the digits read |
| Diagnostics.IntTextRoundTrip | app/src/main/kotlin/Lox.kt:64 | a reported line number reads back as the line |
| Diagnostics.ReportText | app/src/main/kotlin/Lox.kt:63-66 | a report starts with `[line ` and ends with its message |
| Diagnostics.TokenWhere | app/src/main/kotlin/Lox.kt:68-75 | "at end" for EOF, otherwise the lexeme in quotes |
| Diagnostics.ReportLine | app/src/main/kotlin/Lox.kt:59-80 | the exact line `report` and `runtimeError` write for each kind of report |
| Diagnostics.SyntaxReports | app/src/main/kotlin/Lox.kt:68-75 | one report per syntax error |
| Diagnostics.SyntaxReportsElement | app/src/main/kotlin/Lox.kt:68-75 | the i-th report is about the i-th error |
| Diagnostics.SyntaxReportsAppend | app/src/main/kotlin/Lox.kt:68-75 | reports of consecutive errors concatenate |
| Diagnostics.ErrorAtEndText | app/src/main/kotlin/Lox.kt:69-70 | an error at EOF prints `Error at end:` |
| Diagnostics.ErrorAtTokenText | app/src/main/kotlin/Lox.kt:72-73 | any other error quotes the lexeme |
| Diagnostics.LeadingPlusReport | app/src/test/kotlin/me/fornever/klox/ExprParserTest.kt:42-48 | the line the error-production test expects |
| Diagnostics.LineErrorText | app/src/main/kotlin/Lox.kt:59-61 | a scanner report has an empty `where` |
| Diagnostics.ReportedNothing | app/src/main/kotlin/Lox.kt:63-66 | reporting nothing changes nothing |
| Diagnostics.ReportedChain | app/src/main/kotlin/Lox.kt:63-66 | consecutive runs of reports compose in order |
| Diagnostics.Lox.constructor | app/src/main/kotlin/Lox.kt:27-28 | both flags start false, nothing written |
| Diagnostics.Lox.ErrorAtLine | app/src/main/kotlin/Lox.kt:59-66 | appends the report and sets `hadError` |
| Diagnostics.Lox.ErrorAtToken | app/src/main/kotlin/Lox.kt:68-75 | appends the report and sets `hadError` |
| Diagnostics.Lox.RuntimeError | app/src/main/kotlin/Lox.kt:77-80 | appends the report and sets `hadRuntimeError`, keeping `hadError` |
| Diagnostics.Lox.EndPromptLine | app/src/main/kotlin/Lox.kt:43 | clears `hadError` only |
| Driver.Run | app/src/main/kotlin/Lox.kt:47-57 | the statements parsed, the reports of scanning then parsing, and whether the interpreter is reached; parsing uses the corrected `synchronize` of "## Findings" |
| Driver.RunSteps | app/src/main/kotlin/Lox.kt:47-51 | scanning then parsing yields the channel `RunChannel` describes |
| Driver.PromptLine | app/src/main/kotlin/Lox.kt:41-43 | one prompt turn: `run`, then `hadError` cleared |
| Driver.RunGate | app/src/main/kotlin/Lox.kt:53-56 | the interpreter is reached exactly when no error was pending and neither scanner nor parser reported one; a runtime error never closes the gate |
| Driver.PromptLinesIndependent | app/src/main/kotlin/Lox.kt:39-44 | a prompt line is interpreted exactly when it has no errors of its own, whatever came before; a runtime error stays flagged |
| Driver.RunChannel | app/src/main/kotlin/Lox.kt:47-57 | the error stream and flags after `run`: earlier state, then scanner reports, then parser reports |
| Driver.Interprets | app/src/main/kotlin/Lox.kt:53-56 | `run` gets past the `hadError` gate |
| Interpreting.StripPointZero | app/src/main/kotlin/Interpreter.kt:84-88 | a trailing ".0" is removed and nothing else changes |
| Interpreting.LiteralRuntimeValue | app/src/main/kotlin/Interpreter.kt:21 | a literal's value |
| Interpreting.IsTruthy | app/src/main/kotlin/Interpreter.kt:74-78 | nil is false, a boolean is itself, anything else is true |
| Interpreting.IsEqual | app/src/main/kotlin/Interpreter.kt:80 | Kotlin `==` on boxed values: `Double.equals` on numbers; its properties are `IsEqualIsEquivalence` |
| Interpreting.Stringify | app/src/main/kotlin/Interpreter.kt:82-90 | "nil", "true"/"false", a number's text without ".0", a string itself, a function's `toString` |
| Interpreting.BoolText | app/src/main/kotlin/Interpreter.kt:89 | a boolean's `toString` |
| Interpreting.ApplyUnary | app/src/main/kotlin/Interpreter.kt:23-35 | `!` and `-` on an evaluated operand: raises exactly for `-` on a non-number, with "Operand must be a number." at the operator |
| Interpreting.NumberOperands | app/src/main/kotlin/Interpreter.kt:64-67 | `checkNumberOperands`: the operation on two numbers, otherwise "Operands must be numbers." |
| Interpreting.Add | app/src/main/kotlin/Interpreter.kt:48-53 | the `+` arm; its outcomes are `AddOutcomes` |
| Interpreting.ApplyBinary | app/src/main/kotlin/Interpreter.kt:37-62 | an operator on evaluated operands: any error is raised at the operator with one of the three binary messages; `==`, `!=` and unknown operators never raise |
| Interpreting.Evaluate | app/src/main/kotlin/Interpreter.kt:19-72 | the visitor over literal, grouping, unary, binary and ternary nodes; its properties are the lemmas below, `ErrorsComeFromOperators` and `ComparisonsNeverRaise` among them |
| Interpreting.Interpret | app/src/main/kotlin/Interpreter.kt:10-17 | prints the stringified value, or hands the error to `runtimeError` |
| Interpreting.DoubleNegation | app/src/main/kotlin/Interpreter.kt:23-30 | `!!e` is the truthiness of `e` |
| Interpreting.NegateNeedsNumber | app/src/main/kotlin/Interpreter.kt:32-35 | unary `-` on a non-number raises "Operand must be a number." at the operator |
| Interpreting.ArithmeticNeedsNumbers | app/src/main/kotlin/Interpreter.kt:64-67 | `- / * > >= < <=` raise "Operands must be numbers." exactly when an operand is not a number |
| Interpreting.DivisionByZeroForEveryDividend | app/src/main/kotlin/Interpreter.kt:43-46 | dividing by +0.0 or -0.0 raises "Division by zero."; any other divisor divides |
| Interpreting.ZeroOverZeroRaises | app/src/test/kotlin/me/fornever/klox/InterpreterTest.kt:12-14 | the NaN-equality test's `(0 / 0) == (0 / 0)` can be evaluated and raises "Division by zero." at the first `/` (Interpreter.kt:43-46) |
| Interpreting.AddOutcomes | app/src/main/kotlin/Interpreter.kt:48-53 | `+` adds numbers, concatenates when either side is a string (left first), and raises otherwise |
| Interpreting.StringPlusNumber | app/src/test/kotlin/me/fornever/klox/InterpreterTest.kt:16-18 | `"foo" + 42` is `"foo42"` |
| Interpreting.EqualityOperators | app/src/main/kotlin/Interpreter.kt:58-59 | `==` and `!=` never raise and are each other's negation |
| Interpreting.IsEqualIsEquivalence | app/src/main/kotlin/Interpreter.kt:80 | equality is an equivalence, NaN equals NaN, different kinds are never equal |
| Interpreting.LessEqualComputesGreaterEqual | app/src/main/kotlin/Interpreter.kt:57 | `<=` computes `l >= r` |
| Interpreting.LeftOperandFirst | app/src/main/kotlin/Interpreter.kt:37-39 | an error in the left operand wins |
| Interpreting.RightOperandBeforeOperator | app/src/main/kotlin/Interpreter.kt:38-41 | an error in the right operand wins over the operator's |
| Interpreting.TernaryEvaluatesOneBranch | app/src/main/kotlin/Interpreter.kt:69-72 | only the selected branch counts |
| Interpreting.ErrorsComeFromOperators | app/src/main/kotlin/Interpreter.kt:23-67 | every runtime error is raised at an operator token of the expression with one of the four messages |
| Interpreting.ComparisonsNeverRaise | app/src/main/kotlin/Interpreter.kt:21-80 | literals, groupings, `!`, `==`, `!=` and ternaries never raise |
| Numbers.ZeroPatterns | app/src/main/kotlin/Interpreter.kt:44 | `r == 0.0` holds for exactly +0.0 and -0.0 |
| Numbers.SameDoubleIsEquivalence | app/src/main/kotlin/Interpreter.kt:80 | `Double.equals` is an equivalence |
| Numbers.IsZero | app/src/main/kotlin/Interpreter.kt:44 | `r == 0.0` on a primitive double, on the bit pattern |
| Numbers.IsNaN | app/src/main/kotlin/Interpreter.kt:80 | the NaN bit patterns, which `Double.equals` treats as one value |
| Numbers.SameDouble | app/src/main/kotlin/Interpreter.kt:80 | `Double.equals`: equal bit patterns, or both NaN |
| Runtime.Lookup | app/src/main/kotlin/Environment.kt:20-24 | finds the innermost non-nil binding; none exactly when no frame binds the name |
| Runtime.Binds | app/src/main/kotlin/Environment.kt:20-24 | `values.getOrElse(name)` finds a value in this frame: the key is present and not null |
| Runtime.Holds | app/src/main/kotlin/Environment.kt:26-36 | `assign` writes into this frame: the name is declared or is a key |
| Runtime.UndefinedVariable | app/src/main/kotlin/Environment.kt:23 | the text of the undefined-variable error |
| Runtime.Holder | app/src/main/kotlin/Environment.kt:26-36 | the innermost frame that declares the name or has it as a key |
| Runtime.Store | app/src/main/kotlin/Environment.kt:26-39 | the write `values[name] = value` in one frame of the chain; tied to `Lookup` by `AssignThenGet` and `AssignKeepsOtherNames` |
| Runtime.StoreBeyond | app/src/main/kotlin/Environment.kt:33-35 | when the first frame does not hold the name, `assign` is that of the enclosing chain |
| Runtime.AssignThenGet | app/src/main/kotlin/Environment.kt:20-39 | `get` after a successful non-nil `assign` returns the value |
| Runtime.AssignKeepsOtherNames | app/src/main/kotlin/Environment.kt:26-39 | `assign` changes `get` for no other name |
| Runtime.AssignNilFallsThrough | app/src/main/kotlin/Environment.kt:20-24 | after assigning nil, `get` finds the outer binding instead |
| Runtime.Environment.Frames | app/src/main/kotlin/Environment.kt:7-9 | the chain starts with this environment's own frame |
| Runtime.Environment.constructor | app/src/main/kotlin/Environment.kt:7-9 | an empty frame in front of the enclosing chain |
| Runtime.Environment.Declare | app/src/main/kotlin/Environment.kt:11-13 | adds the name to the declared set; no value and no outer frame changes |
| Runtime.Environment.Define | app/src/main/kotlin/Environment.kt:15-18 | declares and binds the name here, and nowhere else |
| Runtime.Environment.Get | app/src/main/kotlin/Environment.kt:20-24 | the value `Lookup` finds on `Frames()`, or "Undefined variable" at the token |
| Runtime.Environment.Assign | app/src/main/kotlin/Environment.kt:26-39 | writes into the frame `Holder` names and changes nothing else, or raises "Undefined variable" with no change |
| Runtime.ParamsStep | app/src/main/kotlin/LoxFunction.kt:32-34 | one more parameter binds its argument over the earlier ones |
| Runtime.ParamBindings | app/src/main/kotlin/LoxFunction.kt:32-34 | the bindings the `define` loop makes, the last argument winning for a repeated name |
| Runtime.ParamNames | app/src/main/kotlin/LoxFunction.kt:32-34 | the names the parameters bind |
| Runtime.BindingKeys | app/src/main/kotlin/LoxFunction.kt:32-34 | exactly the parameter names get bindings |
| Runtime.ParameterBound | app/src/main/kotlin/LoxFunction.kt:32-34 | parameter i is bound to argument i unless a later parameter has the same name |
| Runtime.ParameterLookup | app/src/main/kotlin/LoxFunction.kt:30-37 | inside the call, `get` of a parameter finds its argument, or the closure's binding when the argument is nil |
| Runtime.CallResult | app/src/main/kotlin/LoxFunction.kt:36-41 | the returned value, nil after normal completion, or the error passed on |
| Runtime.LoxFunction.FromDeclaration | app/src/main/kotlin/LoxFunction.kt:14-19 | name, parameters, body and closure of a declaration |
| Runtime.LoxFunction.FromExpression | app/src/main/kotlin/LoxFunction.kt:21-26 | the same, named "anonymous" |
| Runtime.LoxFunction.Arity | app/src/main/kotlin/LoxFunction.kt:28 | the number of parameters |
| Runtime.LoxFunction.ToString | app/src/main/kotlin/LoxFunction.kt:44 | the name between "<fn " and ">", which can be read back |
| Runtime.LoxFunction.Call | app/src/main/kotlin/LoxFunction.kt:30-42 | a fresh environment enclosed by the closure binds the parameters, binding them leaves the closure's chain unchanged, and the result is what the body's completion gives |
| Printing.Parenthesize | app/src/main/kotlin/AstPrinter.kt:23-24 | one pair of parentheses around the name, a space, and the parts joined by spaces |
| Printing.LiteralText | app/src/main/kotlin/AstPrinter.kt:16-19 | "nil" for null, otherwise the value's text |
| Printing.Join | app/src/main/kotlin/AstPrinter.kt:24 | `joinToString(" ")` |
| Printing.Print | app/src/main/kotlin/AstPrinter.kt:10-21 | every node but a literal prints inside one pair of parentheses |
| Printing.PrintLayout | app/src/main/kotlin/AstPrinter.kt:12-15 | `(op left right)`, `(group inner)` and `(op right)`, left operand first |
| Printing.BalanceAppend | app/src/main/kotlin/AstPrinter.kt:23-24 | reading parentheses is compositional |
| Printing.ParenFreeBalance | app/src/main/kotlin/AstPrinter.kt:16-19 | text without parentheses keeps the depth |
| Printing.PrintBalanced | app/src/main/kotlin/AstPrinter.kt:10-24 | the printed form is balanced when no lexeme or literal brings its own parentheses |
| Printing.ParenthesizeBalanced | app/src/main/kotlin/AstPrinter.kt:23-24 | a node is balanced when its parts are |
| Printing.OpenCloseBalance | app/src/main/kotlin/AstPrinter.kt:23-24 | `(` head body `)` is balanced when body is |

## Left out

- Statement execution is not modelled: `executeBlock`, `print`, blocks, `if`, `while`, `break` and `var` statements. Interpreter.kt's own `interpret` takes one expression.
- Lox.kt:56 passes the statement list to `interpret`, which takes an expression. The model keeps the gate in `run` (`Driver.Run` reports whether the interpreter is reached) but evaluates nothing there.
- `println` of the interpreter's result is the returned `output`. The `> ` prompt, reading stdin, `runFile` and the process exit codes (64, 65, 70) are I/O and are not modelled.
- Floating-point arithmetic, comparison and `Double.toString` are host functions (`Numbers.Host`), not IEEE semantics. Only the zero test and `Double.equals` are decided by the model.
- Runtime.LoxFunction.Call: running the body is an oracle parameter (`execute`), because `Interpreter.executeBlock` is not part of Interpreter.kt. The `Return` exception is a `Completion` value. The oracle is a function of the chain it is given and writes to no environment, so a body that assigns to a captured variable, writing through `enclosing` into the closure, is not modelled.
- Runtime.LoxFunction.Call: requires `Arity() <= |arguments|`. Kotlin would throw an index error for fewer arguments; the caller's arity check is not part of this source.
- Interpreting.Evaluate: variables, assignment, calls and anonymous functions have no visitor in Interpreter.kt, so evaluation requires `Evaluable` and covers only literal, grouping, unary, binary and ternary nodes.
- Printing.Print: defined only for the four node kinds AstPrinter.kt has a visitor for (`Printable`). Number text is the host's `toString`.
- The Resolver, App.kt and the `LoxCallable` interface are not part of this model.
- The scanner has no arm for digits, letters, strings, `?` or `:`. These are "Unexpected character." exactly as Scanner.kt writes it (`Lexer.UnexpectedCharacters`). The parser lemmas for the test inputs therefore start from token lists, not from source text.
- `0 / 0` raises "Division by zero." in Interpreter.kt, so the NaN-equality test in InterpreterTest.kt cannot evaluate to true. The model follows the code (`Interpreting.ZeroOverZeroRaises`).
- `<=` evaluates `l >= r` in Interpreter.kt:57. The model keeps it as written (`Interpreting.LessEqualComputesGreaterEqual`) and logs no correction, because the whole model depends on nothing else about it.
- Grammar.ParseDeclaration, Grammar.ParseFrom, Parsing.Parser.Declaration, Parsing.Parser.Parse, Driver.Run: these use the corrected `synchronize` of "## Findings". Where the loop as written spins (a stray `)` followed by a token that is no synchronisation point, such as `) + ;`), they return instead, so their termination is not a property of Parser.kt as written.
- Lexer.StepAt, Lexer.ScanFrom, Lexer.Tokenize: the source is a sequence of Unicode scalar values, while Kotlin's `source[current++]` walks UTF-16 code units. A character above U+FFFF, such as U+1F600, is one unexpected character here and gives one report; in the source it is two `Char`s and gives two reports.
- Scanner positions are unbounded naturals and line numbers unbounded integers; the 32-bit `Int` of the source never overflows at these sizes.

## Findings

| source | as written | input that shows it | evidently intended | confidence | as-written member | corrected member |
|---|---|---|---|---|---|---|
| app/src/main/kotlin/Parser.kt:210-222 | the `while (!isAtEnd())` loop of `synchronize` never calls `advance()`, so it returns only if the token right after the error is a synchronisation point | the tokens `) 2 ; EOF`: `primary` throws at `)`, `synchronize` advances to `2`, which is neither after a `;` nor a statement keyword, and the loop spins | advance inside the loop until just after a `;`, before a statement keyword, or at EOF | not executed | Grammar.SynchronizeAsWritten, GrammarFacts.StrayParenthesisHangs | Grammar.Synchronize, Parsing.Parser.Synchronize |
