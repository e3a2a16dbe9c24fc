/**
 * What the recursive-descent parser (Parser.kt) computes, as functions of the token list
 * and a cursor position. Each function returns the node the production builds (None when
 * it threw `ParseError`), the cursor position where it stopped, and the syntax errors it
 * reported through `Lox.error`, in order. The `Parser` class performs the same steps on a
 * mutable cursor and is proved to agree with these functions.
 */
module Grammar {
  import opened Results
  import opened Syntax
  import opened Diagnostics

  datatype Parsed<T> = Parsed(value: Option<T>, pos: nat, errors: seq<SyntaxError>)

  /** What `parse` returns, with what it reported on the way. */
  datatype Program = Program(statements: seq<Stmt>, errors: seq<SyntaxError>)

  /** The token lists the parser is given: the scanner always ends them with EOF. */
  predicate WellFormed(ts: seq<Token>) {
    |ts| > 0 && ts[|ts| - 1].kind == Eof
  }

  predicate AtEnd(ts: seq<Token>, pos: nat)
    requires pos < |ts|
  {
    ts[pos].kind == Eof
  }

  /** The cursor after `advance`: one further, except at EOF. */
  function Advanced(ts: seq<Token>, pos: nat): (next: nat)
    requires WellFormed(ts) && pos < |ts|
    ensures next < |ts|
  {
    if AtEnd(ts, pos) then pos else pos + 1
  }

  /** `check(kind)`: false at EOF, whatever `kind` is. */
  predicate Check(ts: seq<Token>, pos: nat, kind: TokenType)
    requires pos < |ts|
  {
    !AtEnd(ts, pos) && ts[pos].kind == kind
  }

  /** `match(kinds...)` succeeds, and then consumes exactly the token under the cursor. */
  predicate Matches(ts: seq<Token>, pos: nat, kinds: seq<TokenType>)
    requires pos < |ts|
  {
    !AtEnd(ts, pos) && ts[pos].kind in kinds
  }

  // ---------------------------------------------------------------- expressions

  /** The precedence functions, from `comma` (loosest) to `primary`. */
  datatype Level =
    | CommaLevel | AssignmentLevel | TernaryLevel | EqualityLevel | ComparisonLevel
    | TermLevel | FactorLevel | UnaryLevel | PrimaryLevel

  function Rank(lv: Level): nat {
    match lv
    case CommaLevel => 8
    case AssignmentLevel => 7
    case TernaryLevel => 6
    case EqualityLevel => 5
    case ComparisonLevel => 4
    case TermLevel => 3
    case FactorLevel => 2
    case UnaryLevel => 1
    case PrimaryLevel => 0
  }

  /** The levels written as `expr = next(); while (match(ops)) expr = Binary(expr, op, next())`. */
  predicate IsBinaryLevel(lv: Level) {
    lv in {CommaLevel, EqualityLevel, ComparisonLevel, TermLevel, FactorLevel}
  }

  function Operators(lv: Level): seq<TokenType>
    requires IsBinaryLevel(lv)
  {
    match lv
    case CommaLevel => [Comma]
    case EqualityLevel => [BangEqual, EqualEqual]
    case ComparisonLevel => [Greater, GreaterEqual, Less, LessEqual]
    case TermLevel => [Minus, Plus]
    case FactorLevel => [Slash, Star]
  }

  /** The level a binary level parses its operands at. */
  function Operand(lv: Level): (next: Level)
    requires IsBinaryLevel(lv)
    ensures Rank(next) < Rank(lv)
  {
    match lv
    case CommaLevel => AssignmentLevel
    case EqualityLevel => ComparisonLevel
    case ComparisonLevel => TermLevel
    case TermLevel => FactorLevel
    case FactorLevel => UnaryLevel
  }

  /** The operators `unary` reports as missing their left operand. */
  const LeadingBinaryOperators: seq<TokenType> :=
    [Comma, BangEqual, EqualEqual, Greater, GreaterEqual, Less, LessEqual, Minus, Plus, Slash, Star]

  const InvalidAssignmentTarget := "Invalid assignment target."
  const ExpectedColon := "Expected colon in ternary expression."
  const MissingLeftOperand := "Binary operator should include both terms."
  const ExpectRightParen := "Expect ')' after expression."
  const ExpectExpression := "Expect expression."
  const ExpectValueSemicolon := "Expect ';' after value."
  const ExpectExpressionSemicolon := "Expect ';' after expression."
  const ExpectVariableName := "Expect variable name."
  const ExpectInitializerSemicolon := "Expect ';' after variable initialization."

  /** A production that threw, at `pos`, after reporting `errors`. */
  function Threw<T>(pos: nat, errors: seq<SyntaxError>): Parsed<T> {
    Parsed(None, pos, errors)
  }

  /** The expression the precedence function for `lv` parses from `pos`. */
  function ParseExpr(ts: seq<Token>, pos: nat, lv: Level): (r: Parsed<Expr>)
    requires WellFormed(ts) && pos < |ts|
    ensures pos <= r.pos < |ts|
    ensures r.value.Some? ==> pos < r.pos
    decreases |ts| - pos, Rank(lv), 1
  {
    if IsBinaryLevel(lv) then ParseBinary(ts, pos, lv)
    else if lv == AssignmentLevel then ParseAssignment(ts, pos)
    else if lv == TernaryLevel then ParseTernary(ts, pos)
    else if lv == UnaryLevel then ParseUnary(ts, pos)
    else ParsePrimary(ts, pos)
  }

  /** `comma`, `equality`, `comparison`, `term` and `factor`. */
  function ParseBinary(ts: seq<Token>, pos: nat, lv: Level): (r: Parsed<Expr>)
    requires WellFormed(ts) && pos < |ts| && IsBinaryLevel(lv)
    ensures pos <= r.pos < |ts|
    ensures r.value.Some? ==> pos < r.pos
    decreases |ts| - pos, Rank(lv), 0
  {
    var first := ParseExpr(ts, pos, Operand(lv));
    if first.value.None? then first
    else ParseBinaryRest(ts, lv, first.value.value, first.pos, first.errors)
  }

  /** `assignment`: right-recursive, and an Assign node only over a variable. */
  function ParseAssignment(ts: seq<Token>, pos: nat): (r: Parsed<Expr>)
    requires WellFormed(ts) && pos < |ts|
    ensures pos <= r.pos < |ts|
    ensures r.value.Some? ==> pos < r.pos
    decreases |ts| - pos, Rank(AssignmentLevel), 0
  {
    var target := ParseTernary(ts, pos);
    if target.value.None? || !Matches(ts, target.pos, [Equal]) then target
    else
      var value := ParseAssignment(ts, target.pos + 1);
      var errors := target.errors + value.errors;
      if value.value.None? then Threw(value.pos, errors)
      else if target.value.value.Variable? then
        Parsed(Some(Assign(target.value.value.name, value.value.value)), value.pos, errors)
      else
        Parsed(target.value, value.pos, errors + [SyntaxError(ts[target.pos], InvalidAssignmentTarget)])
  }

  /** `ternary`: `c ? t : f` with all three parts at equality precedence. */
  function ParseTernary(ts: seq<Token>, pos: nat): (r: Parsed<Expr>)
    requires WellFormed(ts) && pos < |ts|
    ensures pos <= r.pos < |ts|
    ensures r.value.Some? ==> pos < r.pos
    decreases |ts| - pos, Rank(TernaryLevel), 0
  {
    var condition := ParseBinary(ts, pos, EqualityLevel);
    if condition.value.None? || !Matches(ts, condition.pos, [QuestionMark]) then condition
    else
      var branches := ParseBranches(ts, condition.pos + 1);
      var value := if branches.value.Some? then
        Some(Ternary(condition.value.value, branches.value.value.0, branches.value.value.1)) else None;
      Parsed(value, branches.pos, condition.errors + branches.errors)
  }

  /** The part of `ternary` after the `?`: `t : f`. */
  function ParseBranches(ts: seq<Token>, pos: nat): (r: Parsed<(Expr, Expr)>)
    requires WellFormed(ts) && pos < |ts|
    ensures pos <= r.pos < |ts|
    ensures r.value.Some? ==> pos < r.pos
    decreases |ts| - pos, Rank(TernaryLevel), 0
  {
    var ifTrue := ParseBinary(ts, pos, EqualityLevel);
    if ifTrue.value.None? then Threw(ifTrue.pos, ifTrue.errors)
    else if !Check(ts, ifTrue.pos, Colon) then
      Threw(ifTrue.pos, ifTrue.errors + [SyntaxError(ts[ifTrue.pos], ExpectedColon)])
    else
      var ifFalse := ParseBinary(ts, ifTrue.pos + 1, EqualityLevel);
      var value := if ifFalse.value.Some? then Some((ifTrue.value.value, ifFalse.value.value)) else None;
      Parsed(value, ifFalse.pos, ifTrue.errors + ifFalse.errors)
  }

  /** `unary`, with the error production for a binary operator that lacks its left operand. */
  function ParseUnary(ts: seq<Token>, pos: nat): (r: Parsed<Expr>)
    requires WellFormed(ts) && pos < |ts|
    ensures pos <= r.pos < |ts|
    ensures r.value.Some? ==> pos < r.pos
    decreases |ts| - pos, Rank(UnaryLevel), 0
  {
    if Matches(ts, pos, [Bang, Minus]) then
      var right := ParseUnary(ts, pos + 1);
      if right.value.None? then right
      else Parsed(Some(Unary(ts[pos], right.value.value)), right.pos, right.errors)
    else if Matches(ts, pos, LeadingBinaryOperators) then
      var operand := ParsePrimary(ts, pos + 1);
      Parsed(operand.value, operand.pos, [SyntaxError(ts[pos], MissingLeftOperand)] + operand.errors)
    else ParsePrimary(ts, pos)
  }

  /** `primary`: literals, variables and parenthesised expressions. */
  function ParsePrimary(ts: seq<Token>, pos: nat): (r: Parsed<Expr>)
    requires WellFormed(ts) && pos < |ts|
    ensures pos <= r.pos < |ts|
    ensures r.value.Some? ==> pos < r.pos
    decreases |ts| - pos, Rank(PrimaryLevel), 0
  {
    if Matches(ts, pos, [False]) then Parsed(Some(Literal(BoolValue(false))), pos + 1, [])
    else if Matches(ts, pos, [True]) then Parsed(Some(Literal(BoolValue(true))), pos + 1, [])
    else if Matches(ts, pos, [Nil]) then Parsed(Some(Literal(NilValue)), pos + 1, [])
    else if Matches(ts, pos, [NumberLit, StringLit]) then Parsed(Some(Literal(ts[pos].literal)), pos + 1, [])
    else if Matches(ts, pos, [Identifier]) then Parsed(Some(Variable(ts[pos])), pos + 1, [])
    else if Matches(ts, pos, [LeftParen]) then ParseGroup(ts, pos + 1)
    else Threw(pos, [SyntaxError(ts[pos], ExpectExpression)])
  }

  /** The parenthesised branch of `primary`, after the `(`: an expression, then `)`. */
  function ParseGroup(ts: seq<Token>, pos: nat): (r: Parsed<Expr>)
    requires WellFormed(ts) && pos < |ts|
    ensures pos <= r.pos < |ts|
    ensures r.value.Some? ==> pos < r.pos
    decreases |ts| - pos, Rank(CommaLevel) + 1, 0
  {
    var inner := ParseBinary(ts, pos, CommaLevel);
    if inner.value.None? then inner
    else if Check(ts, inner.pos, RightParen) then
      Parsed(Some(Grouping(inner.value.value)), inner.pos + 1, inner.errors)
    else Threw(inner.pos, inner.errors + [SyntaxError(ts[inner.pos], ExpectRightParen)])
  }

  /**
   * The `while (match(ops))` loop of a binary level, entered with `left` parsed, the cursor
   * at `pos` and `errors` reported so far.
   */
  function ParseBinaryRest(ts: seq<Token>, lv: Level, left: Expr, pos: nat, errors: seq<SyntaxError>): (r: Parsed<Expr>)
    requires WellFormed(ts) && pos < |ts| && IsBinaryLevel(lv)
    ensures pos <= r.pos < |ts|
    ensures |errors| <= |r.errors|
    decreases |ts| - pos, Rank(lv), 0
  {
    if !Matches(ts, pos, Operators(lv)) then Parsed(Some(left), pos, errors)
    else
      var right := ParseExpr(ts, pos + 1, Operand(lv));
      if right.value.None? then Threw(right.pos, errors + right.errors)
      else ParseBinaryRest(ts, lv, Binary(left, ts[pos], right.value.value), right.pos, errors + right.errors)
  }

  // ---------------------------------------------------------------- statements

  /** `consume(kind, message)`: the token, or a thrown error reported at the token under the cursor. */
  function Consume(ts: seq<Token>, pos: nat, kind: TokenType, message: string): (r: Parsed<Token>)
    requires WellFormed(ts) && pos < |ts|
    ensures r.value.Some? <==> Check(ts, pos, kind)
    ensures r.value.Some? ==> r == Parsed(Some(ts[pos]), pos + 1, [])
    ensures r.value.None? ==> r == Parsed(None, pos, [SyntaxError(ts[pos], message)])
  {
    if Check(ts, pos, kind) then Parsed(Some(ts[pos]), pos + 1, [])
    else Threw(pos, [SyntaxError(ts[pos], message)])
  }

  /** `printStatement()` (after `print`) or `expressionStatement()`: an expression and a `;`. */
  function ParseTerminated(ts: seq<Token>, pos: nat, isPrint: bool): (r: Parsed<Stmt>)
    requires WellFormed(ts) && pos < |ts|
    ensures pos <= r.pos < |ts|
    ensures r.value.Some? ==> pos < r.pos && ts[r.pos - 1].kind == Semicolon
  {
    var e := ParseBinary(ts, pos, CommaLevel);
    if e.value.None? then Threw(e.pos, e.errors)
    else
      var semicolon := Consume(ts, e.pos, Semicolon,
        if isPrint then ExpectValueSemicolon else ExpectExpressionSemicolon);
      if semicolon.value.None? then Threw(semicolon.pos, e.errors + semicolon.errors)
      else Parsed(Some(if isPrint then Stmt.Print(e.value.value) else Expression(e.value.value)),
                  semicolon.pos, e.errors)
  }

  /** `statement()`: a print statement after `print`, an expression statement otherwise. */
  function ParseStatement(ts: seq<Token>, pos: nat): (r: Parsed<Stmt>)
    requires WellFormed(ts) && pos < |ts|
    ensures pos <= r.pos < |ts|
    ensures r.value.Some? ==> pos < r.pos
  {
    if Matches(ts, pos, [TokenType.Print]) then ParseTerminated(ts, pos + 1, true)
    else ParseTerminated(ts, pos, false)
  }

  /** `varDeclaration()`, entered after `var`. */
  function ParseVarDeclaration(ts: seq<Token>, pos: nat): (r: Parsed<Stmt>)
    requires WellFormed(ts) && pos < |ts|
    ensures pos <= r.pos < |ts|
    ensures r.value.Some? ==> pos < r.pos && r.value.value.Var? && r.value.value.name.kind == Identifier
  {
    var name := Consume(ts, pos, Identifier, ExpectVariableName);
    if name.value.None? then Threw(name.pos, name.errors)
    else
      var init := ParseInitializer(ts, name.pos);
      if init.value.None? then Threw(init.pos, init.errors)
      else
        var semicolon := Consume(ts, init.pos, Semicolon, ExpectInitializerSemicolon);
        if semicolon.value.None? then Threw(semicolon.pos, init.errors + semicolon.errors)
        else Parsed(Some(Stmt.Var(name.value.value, init.value.value)), semicolon.pos, init.errors)
  }

  /** The optional `= expression` of a variable declaration: `Some(None)` when there is no `=`. */
  function ParseInitializer(ts: seq<Token>, pos: nat): (r: Parsed<Option<Expr>>)
    requires WellFormed(ts) && pos < |ts|
    ensures pos <= r.pos < |ts|
    ensures r.value == Some(None) <==> !Matches(ts, pos, [Equal])
    ensures r.value == Some(None) ==> r.pos == pos && r.errors == []
  {
    if Matches(ts, pos, [Equal]) then
      var e := ParseBinary(ts, pos + 1, CommaLevel);
      Parsed(if e.value.Some? then Some(Some(e.value.value)) else None, e.pos, e.errors)
    else Parsed(Some(None), pos, [])
  }

  /** The `try` block of `declaration()`: a variable declaration after `var`, a statement otherwise. */
  function ParseDeclarationBody(ts: seq<Token>, pos: nat): (r: Parsed<Stmt>)
    requires WellFormed(ts) && pos < |ts|
    ensures pos <= r.pos < |ts|
    ensures r.value.Some? ==> pos < r.pos
  {
    if Matches(ts, pos, [TokenType.Var]) then ParseVarDeclaration(ts, pos + 1)
    else ParseStatement(ts, pos)
  }

  // ---------------------------------------------------------------- recovery

  /** The kinds `synchronize` treats as the start of a new statement. */
  const StatementStarts: set<TokenType> := {Class, For, Fun, TokenType.If, TokenType.Print, TokenType.Return, TokenType.Var, TokenType.While}

  /** Where `synchronize` stops: at EOF, just after a `;`, or before a statement keyword. */
  predicate SyncPoint(ts: seq<Token>, pos: nat)
    requires 0 < pos < |ts|
  {
    AtEnd(ts, pos) || ts[pos - 1].kind == Semicolon || ts[pos].kind in StatementStarts
  }

  /**
   * Error recovery, with the evidently intended loop: advance once, then advance until a
   * synchronisation point. (The loop in Parser.kt never advances; see `SynchronizeAsWritten`.)
   */
  function Synchronize(ts: seq<Token>, pos: nat): (r: nat)
    requires WellFormed(ts) && pos < |ts| && (0 < pos || !AtEnd(ts, pos))
    ensures 0 < r < |ts| && SyncPoint(ts, r)
    ensures AtEnd(ts, pos) ==> r == pos
    ensures !AtEnd(ts, pos) ==> pos < r
    ensures forall k :: Advanced(ts, pos) <= k < r ==> !SyncPoint(ts, k)
  {
    SkipToSyncPoint(ts, Advanced(ts, pos))
  }

  function SkipToSyncPoint(ts: seq<Token>, pos: nat): (r: nat)
    requires WellFormed(ts) && 0 < pos < |ts|
    ensures pos <= r < |ts| && SyncPoint(ts, r)
    ensures forall k :: pos <= k < r ==> !SyncPoint(ts, k)
    decreases |ts| - pos
  {
    if SyncPoint(ts, pos) then pos else SkipToSyncPoint(ts, pos + 1)
  }

  /**
   * `synchronize` as Parser.kt writes it: after the first `advance` the loop body only
   * tests and never moves the cursor, so it either returns at once or never returns (None).
   */
  function SynchronizeAsWritten(ts: seq<Token>, pos: nat): Option<nat>
    requires WellFormed(ts) && pos < |ts| && (0 < pos || !AtEnd(ts, pos))
  {
    var next := Advanced(ts, pos);
    if SyncPoint(ts, next) then Some(next) else None
  }

  /** `declaration()`: a declaration, or null (None) after a ParseError and recovery. */
  function ParseDeclaration(ts: seq<Token>, pos: nat): (r: Parsed<Stmt>)
    requires WellFormed(ts) && pos < |ts| && !AtEnd(ts, pos)
    ensures pos < r.pos < |ts|
  {
    var d := ParseDeclarationBody(ts, pos);
    if d.value.Some? then d else Parsed(None, Synchronize(ts, d.pos), d.errors)
  }

  /** The loop of `parse()` from `pos`: the declarations that parsed, in order. */
  function ParseFrom(ts: seq<Token>, pos: nat): (r: Program)
    requires WellFormed(ts) && pos < |ts|
    ensures |r.statements| < |ts| - pos
    decreases |ts| - pos
  {
    if AtEnd(ts, pos) then Program([], [])
    else
      var d := ParseDeclaration(ts, pos);
      var rest := ParseFrom(ts, d.pos);
      Program((if d.value.Some? then [d.value.value] else []) + rest.statements, d.errors + rest.errors)
  }

  /** `parse()` on a fresh parser. */
  function ParseProgram(ts: seq<Token>): Program
    requires WellFormed(ts)
  {
    ParseFrom(ts, 0)
  }
}
