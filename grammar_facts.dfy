/**
 * What the grammar functions guarantee: operator precedence and associativity of the
 * trees the parser builds, the non-throwing error productions, the recovery that
 * `synchronize` performs, and the parses of the expressions the parser tests use.
 */
module GrammarFacts {
  import opened Results
  import opened Numbers
  import opened Syntax
  import opened Diagnostics
  import opened Grammar
  import opened SeqFacts

  // ---------------------------------------------------------------- precedence

  /** The rank of the precedence level at which a binary operator is parsed (0: not one). */
  function OperatorRank(kind: TokenType): nat {
    match kind
    case Comma => 8
    case BangEqual | EqualEqual => 5
    case Greater | GreaterEqual | Less | LessEqual => 4
    case Minus | Plus => 3
    case Slash | Star => 2
    case _ => 0
  }

  /** The rank of the loosest construct at the root of `e`; a grouping resets it to 0. */
  function TopRank(e: Expr): nat {
    match e
    case Binary(_, operator, _) => OperatorRank(operator.kind)
    case Assign(_, _) => 7
    case Ternary(_, _, _) => 6
    case Unary(_, _) => 1
    case _ => 0
  }

  /**
   * Every node of `e` is nested as the grammar allows without parentheses: a binary
   * node's left operand binds at least as tightly as it does and its right operand
   * strictly more tightly (left associativity), ternary parts are equality-level,
   * assignment targets are identifiers, and a looser construct appears under a tighter
   * one only inside a grouping.
   */
  predicate WellNested(e: Expr) {
    match e
    case Binary(left, operator, right) =>
      2 <= OperatorRank(operator.kind)
      && TopRank(left) <= OperatorRank(operator.kind) && TopRank(right) < OperatorRank(operator.kind)
      && WellNested(left) && WellNested(right)
    case Unary(operator, right) =>
      (operator.kind == Bang || operator.kind == Minus) && TopRank(right) <= 1 && WellNested(right)
    case Ternary(condition, ifTrue, ifFalse) =>
      TopRank(condition) <= 5 && TopRank(ifTrue) <= 5 && TopRank(ifFalse) <= 5
      && WellNested(condition) && WellNested(ifTrue) && WellNested(ifFalse)
    case Assign(name, value) => name.kind == Identifier && TopRank(value) <= 7 && WellNested(value)
    case Grouping(inner) => WellNested(inner)
    case Variable(name) => name.kind == Identifier
    case Literal(_) => true
    case AnonymousFunction(_, _) => false
  }

  lemma {:induction false} OperatorsHaveTheirLevelsRank(lv: Level, kind: TokenType)
    requires IsBinaryLevel(lv) && kind in Operators(lv)
    ensures OperatorRank(kind) == Rank(lv)
  {
  }

  /** Every tree a precedence function builds is well nested and no looser than its level. */
  lemma {:induction false} ParsePrecedence(ts: seq<Token>, pos: nat, lv: Level)
    requires WellFormed(ts) && pos < |ts|
    ensures var r := ParseExpr(ts, pos, lv);
      r.value.Some? ==> WellNested(r.value.value) && TopRank(r.value.value) <= Rank(lv)
    decreases |ts| - pos, Rank(lv), 1
  {
    if IsBinaryLevel(lv) {
      BinaryPrecedence(ts, pos, lv);
    } else if lv == AssignmentLevel {
      AssignmentPrecedence(ts, pos);
    } else if lv == TernaryLevel {
      TernaryPrecedence(ts, pos);
    } else if lv == UnaryLevel {
      UnaryPrecedence(ts, pos);
    } else {
      PrimaryPrecedence(ts, pos);
    }
  }

  lemma {:induction false} BinaryPrecedence(ts: seq<Token>, pos: nat, lv: Level)
    requires WellFormed(ts) && pos < |ts| && IsBinaryLevel(lv)
    ensures var r := ParseBinary(ts, pos, lv);
      r.value.Some? ==> WellNested(r.value.value) && TopRank(r.value.value) <= Rank(lv)
    decreases |ts| - pos, Rank(lv), 0
  {
    var first := ParseExpr(ts, pos, Operand(lv));
    ParsePrecedence(ts, pos, Operand(lv));
    if first.value.Some? {
      BinaryRestPrecedence(ts, lv, first.value.value, first.pos, first.errors);
    }
  }

  lemma {:induction false} AssignmentPrecedence(ts: seq<Token>, pos: nat)
    requires WellFormed(ts) && pos < |ts|
    ensures var r := ParseAssignment(ts, pos);
      r.value.Some? ==> WellNested(r.value.value) && TopRank(r.value.value) <= 7
    decreases |ts| - pos, Rank(AssignmentLevel), 0
  {
    var target := ParseTernary(ts, pos);
    TernaryPrecedence(ts, pos);
    if target.value.Some? && Matches(ts, target.pos, [Equal]) {
      AssignmentPrecedence(ts, target.pos + 1);
    }
  }

  lemma {:induction false} TernaryPrecedence(ts: seq<Token>, pos: nat)
    requires WellFormed(ts) && pos < |ts|
    ensures var r := ParseTernary(ts, pos);
      r.value.Some? ==> WellNested(r.value.value) && TopRank(r.value.value) <= 6
    decreases |ts| - pos, Rank(TernaryLevel), 0
  {
    var condition := ParseBinary(ts, pos, EqualityLevel);
    BinaryPrecedence(ts, pos, EqualityLevel);
    if condition.value.Some? && Matches(ts, condition.pos, [QuestionMark]) {
      var branches := ParseBranches(ts, condition.pos + 1);
      BranchesPrecedence(ts, condition.pos + 1);
      assert ParseTernary(ts, pos).value.Some? ==>
        ParseTernary(ts, pos).value.value == Ternary(condition.value.value, branches.value.value.0, branches.value.value.1);
    } else {
      assert ParseTernary(ts, pos) == condition;
    }
  }

  lemma {:induction false} BranchesPrecedence(ts: seq<Token>, pos: nat)
    requires WellFormed(ts) && pos < |ts|
    ensures var r := ParseBranches(ts, pos);
      r.value.Some? ==>
        && WellNested(r.value.value.0) && TopRank(r.value.value.0) <= 5
        && WellNested(r.value.value.1) && TopRank(r.value.value.1) <= 5
    decreases |ts| - pos, Rank(TernaryLevel), 0
  {
    var ifTrue := ParseBinary(ts, pos, EqualityLevel);
    BinaryPrecedence(ts, pos, EqualityLevel);
    if ifTrue.value.Some? && Check(ts, ifTrue.pos, Colon) {
      BinaryPrecedence(ts, ifTrue.pos + 1, EqualityLevel);
    }
  }

  lemma {:induction false} UnaryPrecedence(ts: seq<Token>, pos: nat)
    requires WellFormed(ts) && pos < |ts|
    ensures var r := ParseUnary(ts, pos);
      r.value.Some? ==> WellNested(r.value.value) && TopRank(r.value.value) <= 1
    decreases |ts| - pos, Rank(UnaryLevel), 0
  {
    if Matches(ts, pos, [Bang, Minus]) {
      UnaryPrecedence(ts, pos + 1);
    } else if Matches(ts, pos, LeadingBinaryOperators) {
      PrimaryPrecedence(ts, pos + 1);
    } else {
      PrimaryPrecedence(ts, pos);
    }
  }

  lemma {:induction false} PrimaryPrecedence(ts: seq<Token>, pos: nat)
    requires WellFormed(ts) && pos < |ts|
    ensures var r := ParsePrimary(ts, pos);
      r.value.Some? ==> WellNested(r.value.value) && TopRank(r.value.value) == 0
    decreases |ts| - pos, Rank(PrimaryLevel), 0
  {
    if Matches(ts, pos, [LeftParen]) {
      BinaryPrecedence(ts, pos + 1, CommaLevel);
      assert ParsePrimary(ts, pos) == ParseGroup(ts, pos + 1);
    }
  }

  /** The operator loop of a binary level keeps the tree well nested, folding to the left. */
  lemma {:induction false} BinaryRestPrecedence(ts: seq<Token>, lv: Level, left: Expr, pos: nat, errors: seq<SyntaxError>)
    requires WellFormed(ts) && pos < |ts| && IsBinaryLevel(lv)
    requires WellNested(left) && TopRank(left) <= Rank(lv)
    ensures var r := ParseBinaryRest(ts, lv, left, pos, errors);
      r.value.Some? ==> WellNested(r.value.value) && TopRank(r.value.value) <= Rank(lv)
    decreases |ts| - pos, Rank(lv), 0
  {
    if Matches(ts, pos, Operators(lv)) {
      var right := ParseExpr(ts, pos + 1, Operand(lv));
      ParsePrecedence(ts, pos + 1, Operand(lv));
      if right.value.Some? {
        OperatorsHaveTheirLevelsRank(lv, ts[pos].kind);
        BinaryRestPrecedence(ts, lv, Binary(left, ts[pos], right.value.value), right.pos, errors + right.errors);
      }
    }
  }

  /**
   * The operator loop passes the errors reported before it through unchanged, in front of
   * its own: running it with `errors` is running it from none and prefixing `errors`.
   */
  lemma {:induction false} BinaryRestAccumulates(ts: seq<Token>, lv: Level, left: Expr, pos: nat, errors: seq<SyntaxError>)
    requires WellFormed(ts) && pos < |ts| && IsBinaryLevel(lv)
    ensures var alone := ParseBinaryRest(ts, lv, left, pos, []);
      ParseBinaryRest(ts, lv, left, pos, errors) == Parsed(alone.value, alone.pos, errors + alone.errors)
    decreases |ts| - pos
  {
    if Matches(ts, pos, Operators(lv)) {
      var right := ParseExpr(ts, pos + 1, Operand(lv));
      if right.value.Some? {
        var next := Binary(left, ts[pos], right.value.value);
        BinaryRestAccumulates(ts, lv, next, right.pos, errors + right.errors);
        BinaryRestAccumulates(ts, lv, next, right.pos, [] + right.errors);
        assert [] + right.errors == right.errors;
        var tail := ParseBinaryRest(ts, lv, next, right.pos, []);
        AppendAssociative(errors, right.errors, tail.errors);
      } else {
        assert [] + right.errors == right.errors;
      }
    } else {
      assert errors + [] == errors;
    }
  }

  /**
   * Left associativity: when a binary level returns an operator of its own level at the
   * root, the right operand holds no operator of that level outside parentheses, so
   * `a - b - c` can only be `(a - b) - c`.
   */
  lemma {:induction false} LeftAssociative(ts: seq<Token>, pos: nat, lv: Level)
    requires WellFormed(ts) && pos < |ts| && IsBinaryLevel(lv)
    ensures var r := ParseExpr(ts, pos, lv);
      r.value.Some? && r.value.value.Binary? && r.value.value.operator.kind in Operators(lv) ==>
        TopRank(r.value.value.right) < Rank(lv) && TopRank(r.value.value.left) <= Rank(lv)
  {
    ParsePrecedence(ts, pos, lv);
    var r := ParseExpr(ts, pos, lv);
    if r.value.Some? && r.value.value.Binary? && r.value.value.operator.kind in Operators(lv) {
      OperatorsHaveTheirLevelsRank(lv, r.value.value.operator.kind);
    }
  }

  /** A ternary's three parts are parsed at equality precedence. */
  lemma {:induction false} TernaryOperandsAreEqualities(ts: seq<Token>, pos: nat)
    requires WellFormed(ts) && pos < |ts|
    ensures var r := ParseExpr(ts, pos, CommaLevel);
      r.value.Some? && r.value.value.Ternary? ==>
        TopRank(r.value.value.condition) <= 5 && TopRank(r.value.value.ifTrue) <= 5
        && TopRank(r.value.value.ifFalse) <= 5
  {
    ParsePrecedence(ts, pos, CommaLevel);
  }

  // ---------------------------------------------------------------- error productions

  /**
   * `a = b` with a left side that is not a variable: "Invalid assignment target." is
   * reported at the `=` after the right side's errors, nothing is thrown, and the left
   * side is the result.
   */
  lemma {:induction false} InvalidAssignmentTargetKeepsParsing(ts: seq<Token>, pos: nat)
    requires WellFormed(ts) && pos < |ts|
    requires ParseExpr(ts, pos, TernaryLevel).value.Some?
    requires !ParseExpr(ts, pos, TernaryLevel).value.value.Variable?
    requires Matches(ts, ParseExpr(ts, pos, TernaryLevel).pos, [Equal])
    requires ParseExpr(ts, ParseExpr(ts, pos, TernaryLevel).pos + 1, AssignmentLevel).value.Some?
    ensures var target := ParseExpr(ts, pos, TernaryLevel);
      var value := ParseExpr(ts, target.pos + 1, AssignmentLevel);
      ParseAssignment(ts, pos)
        == Parsed(target.value, value.pos,
                  target.errors + value.errors + [SyntaxError(ts[target.pos], InvalidAssignmentTarget)])
  {
  }

  /**
   * A binary operator other than `-` where an operand should start: "Binary operator should
   * include both terms." is reported at it, nothing is thrown, and a primary is parsed
   * after it.
   */
  lemma {:induction false} LeadingOperatorKeepsParsing(ts: seq<Token>, pos: nat)
    requires WellFormed(ts) && pos < |ts| && !AtEnd(ts, pos)
    requires ts[pos].kind in {Comma, BangEqual, EqualEqual, Greater, GreaterEqual, Less, LessEqual, Plus, Slash, Star}
    ensures var operand := ParsePrimary(ts, pos + 1);
      ParseUnary(ts, pos) == Parsed(operand.value, operand.pos, [SyntaxError(ts[pos], MissingLeftOperand)] + operand.errors)
  {
  }

  /** `primary` throws "Expect expression." at a token that cannot start an operand, consuming nothing. */
  lemma {:induction false} PrimaryRejects(ts: seq<Token>, pos: nat)
    requires WellFormed(ts) && pos < |ts|
    requires ts[pos].kind !in {False, True, Nil, NumberLit, StringLit, Identifier, LeftParen} || AtEnd(ts, pos)
    ensures ParsePrimary(ts, pos) == Parsed(None, pos, [SyntaxError(ts[pos], ExpectExpression)])
  {
  }

  // ---------------------------------------------------------------- operands without operators

  /** The next tighter level, which a level parses its operands at. */
  function Tighter(lv: Level): (next: Level)
    requires 1 <= Rank(lv)
    ensures Rank(next) == Rank(lv) - 1
  {
    if IsBinaryLevel(lv) then Operand(lv)
    else if lv == AssignmentLevel then TernaryLevel
    else if lv == TernaryLevel then EqualityLevel
    else PrimaryLevel
  }

  /** The token kinds with which a level continues after its first operand. */
  function Continuations(lv: Level): seq<TokenType> {
    if IsBinaryLevel(lv) then Operators(lv)
    else if lv == AssignmentLevel then [Equal]
    else if lv == TernaryLevel then [QuestionMark]
    else []
  }

  /** No level looser than `from`, up to `to`, continues at the token at `q`. */
  predicate Stops(ts: seq<Token>, q: nat, from: Level, to: Level)
    requires q < |ts| && Rank(from) <= Rank(to)
    decreases Rank(to)
  {
    Rank(from) == Rank(to) || (!Matches(ts, q, Continuations(to)) && Stops(ts, q, from, Tighter(to)))
  }

  /**
   * What level `from` parses is also what every looser level `to` parses, when it threw
   * or when no level in between can continue after it.
   */
  lemma {:induction false} Settle(ts: seq<Token>, pos: nat, from: Level, to: Level)
    requires WellFormed(ts) && pos < |ts| && 1 <= Rank(from) <= Rank(to)
    requires ParseExpr(ts, pos, from).value.None? || Stops(ts, ParseExpr(ts, pos, from).pos, from, to)
    ensures ParseExpr(ts, pos, to) == ParseExpr(ts, pos, from)
    decreases Rank(to)
  {
    if Rank(from) < Rank(to) {
      Settle(ts, pos, from, Tighter(to));
      var p := ParseExpr(ts, pos, from);
      if IsBinaryLevel(to) {
        assert p.value.Some? ==> ParseBinaryRest(ts, to, p.value.value, p.pos, p.errors) == p;
        assert ParseExpr(ts, pos, to) == ParseBinary(ts, pos, to);
      } else if to == AssignmentLevel {
        assert ParseExpr(ts, pos, TernaryLevel) == ParseTernary(ts, pos);
        assert ParseExpr(ts, pos, to) == ParseAssignment(ts, pos);
      } else {
        assert ParseExpr(ts, pos, EqualityLevel) == ParseBinary(ts, pos, EqualityLevel);
        assert ParseExpr(ts, pos, to) == ParseTernary(ts, pos);
      }
    }
  }

  // ---------------------------------------------------------------- recovery

  /** Whenever `synchronize` as written returns, it stops where the corrected loop stops. */
  lemma {:induction false} SynchronizeAsWrittenAgrees(ts: seq<Token>, pos: nat)
    requires WellFormed(ts) && pos < |ts| && (0 < pos || !AtEnd(ts, pos))
    ensures SynchronizeAsWritten(ts, pos).Some? ==> SynchronizeAsWritten(ts, pos).value == Synchronize(ts, pos)
  {
  }

  /**
   * `synchronize` as written fails to return exactly when recovery has to skip more than
   * the one token it advances over.
   */
  lemma {:induction false} SynchronizeAsWrittenHangs(ts: seq<Token>, pos: nat)
    requires WellFormed(ts) && pos < |ts| && (0 < pos || !AtEnd(ts, pos))
    ensures SynchronizeAsWritten(ts, pos).None? <==> Advanced(ts, pos) < Synchronize(ts, pos)
  {
  }

  /** The kinds of the tokens in `ts`, in order. */
  function Kinds(ts: seq<Token>): (kinds: seq<TokenType>)
    ensures |kinds| == |ts| && forall i :: 0 <= i < |ts| ==> kinds[i] == ts[i].kind
  {
    seq(|ts|, i requires 0 <= i < |ts| => ts[i].kind)
  }

  /**
   * `) 2;`: `primary` throws at `)`, and `synchronize` as written advances to `2` and then
   * spins forever; the corrected loop skips to the end and the parse reports one error.
   */
  lemma {:induction false} StrayParenthesisHangs(ts: seq<Token>)
    requires Kinds(ts) == [RightParen, NumberLit, Semicolon, Eof]
    ensures ParseDeclarationBody(ts, 0) == Parsed(None, 0, [SyntaxError(ts[0], ExpectExpression)])
    ensures SynchronizeAsWritten(ts, 0) == None
    ensures ParseProgram(ts) == Program([], [SyntaxError(ts[0], ExpectExpression)])
  {
    assert ts[0].kind == RightParen && ts[1].kind == NumberLit && ts[2].kind == Semicolon && ts[3].kind == Eof;
    var thrown: Parsed<Expr> := Parsed(None, 0, [SyntaxError(ts[0], ExpectExpression)]);
    assert ParseExpr(ts, 0, UnaryLevel) == thrown by {
      assert ParsePrimary(ts, 0) == thrown;
      assert ParseUnary(ts, 0) == ParsePrimary(ts, 0);
    }
    Settle(ts, 0, UnaryLevel, CommaLevel);
    assert ParseTerminated(ts, 0, false) == Parsed(None, 0, thrown.errors);
    assert ParseDeclarationBody(ts, 0) == ParseTerminated(ts, 0, false);
    assert !SyncPoint(ts, 1) && !SyncPoint(ts, 2) && SyncPoint(ts, 3);
    assert Synchronize(ts, 0) == 3;
    assert ParseDeclaration(ts, 0) == Parsed(None, 3, thrown.errors);
    assert ParseFrom(ts, 3) == Program([], []);
  }

  // ---------------------------------------------------------------- the parser tests' inputs

  /** A number or string token on its own is a unary-level operand. */
  lemma {:induction false} LiteralOperand(ts: seq<Token>, pos: nat)
    requires WellFormed(ts) && pos < |ts| && (ts[pos].kind == NumberLit || ts[pos].kind == StringLit)
    ensures ParseExpr(ts, pos, UnaryLevel) == Parsed(Some(Literal(ts[pos].literal)), pos + 1, [])
  {
    assert !Matches(ts, pos, [False]) && !Matches(ts, pos, [True]) && !Matches(ts, pos, [Nil]);
    assert Matches(ts, pos, [NumberLit, StringLit]);
    assert ParsePrimary(ts, pos) == Parsed(Some(Literal(ts[pos].literal)), pos + 1, []);
    assert !Matches(ts, pos, [Bang, Minus]) && !Matches(ts, pos, LeadingBinaryOperators);
    assert ParseUnary(ts, pos) == ParsePrimary(ts, pos);
  }

  /** `true` on its own is a unary-level operand. */
  lemma {:induction false} TrueOperand(ts: seq<Token>, pos: nat)
    requires WellFormed(ts) && pos < |ts| && ts[pos].kind == True
    ensures ParseExpr(ts, pos, UnaryLevel) == Parsed(Some(Literal(BoolValue(true))), pos + 1, [])
  {
    assert !Matches(ts, pos, [False]) && Matches(ts, pos, [True]);
    assert ParsePrimary(ts, pos) == Parsed(Some(Literal(BoolValue(true))), pos + 1, []);
    assert !Matches(ts, pos, [Bang, Minus]) && !Matches(ts, pos, LeadingBinaryOperators);
    assert ParseUnary(ts, pos) == ParsePrimary(ts, pos);
  }

  /** One operator step of a binary level's loop. */
  lemma {:induction false} BinaryStep(ts: seq<Token>, lv: Level, left: Expr, pos: nat, errors: seq<SyntaxError>)
    requires WellFormed(ts) && pos < |ts| && IsBinaryLevel(lv) && Matches(ts, pos, Operators(lv))
    requires ParseExpr(ts, pos + 1, Operand(lv)).value.Some?
    ensures var right := ParseExpr(ts, pos + 1, Operand(lv));
      ParseBinaryRest(ts, lv, left, pos, errors)
        == ParseBinaryRest(ts, lv, Binary(left, ts[pos], right.value.value), right.pos, errors + right.errors)
  {
  }

  /** A whole token list that is one expression followed by `;`. */
  lemma {:induction false} SingleExpressionStatement(ts: seq<Token>)
    requires WellFormed(ts) && !AtEnd(ts, 0) && ts[0].kind !in {TokenType.Print, TokenType.Var}
    requires ParseExpr(ts, 0, CommaLevel).value.Some?
    requires ParseExpr(ts, 0, CommaLevel).pos + 2 == |ts|
    requires ts[ParseExpr(ts, 0, CommaLevel).pos].kind == Semicolon
    ensures var e := ParseExpr(ts, 0, CommaLevel);
      ParseProgram(ts) == Program([Expression(e.value.value)], e.errors)
  {
    var e := ParseExpr(ts, 0, CommaLevel);
    assert e == ParseBinary(ts, 0, CommaLevel);
    assert ParseTerminated(ts, 0, false) == Parsed(Some(Expression(e.value.value)), e.pos + 1, e.errors);
    assert ParseDeclaration(ts, 0) == ParseTerminated(ts, 0, false);
    assert ParseFrom(ts, e.pos + 1) == Program([], []);
  }

  /** The kinds of the tokens of `2 + 2, 2 * 2;`. */
  const CommaKinds := [NumberLit, Plus, NumberLit, Comma, NumberLit, Star, NumberLit, Semicolon, Eof]

  /** `2 + 2` before the comma: a sum, at every level down to assignment. */
  lemma {:induction false} CommaLeftOperand(ts: seq<Token>)
    requires Kinds(ts) == CommaKinds
    ensures ParseExpr(ts, 0, AssignmentLevel)
      == Parsed(Some(Binary(Literal(ts[0].literal), ts[1], Literal(ts[2].literal))), 3, [])
  {
    assert ts[0].kind == NumberLit && ts[1].kind == Plus && ts[2].kind == NumberLit && ts[3].kind == Comma;
    var sum := Binary(Literal(ts[0].literal), ts[1], Literal(ts[2].literal));
    LiteralOperand(ts, 0);
    Settle(ts, 0, UnaryLevel, FactorLevel);
    LiteralOperand(ts, 2);
    Settle(ts, 2, UnaryLevel, FactorLevel);
    BinaryStep(ts, TermLevel, Literal(ts[0].literal), 1, []);
    assert ParseBinaryRest(ts, TermLevel, sum, 3, []) == Parsed(Some(sum), 3, []);
    assert ParseExpr(ts, 0, TermLevel) == ParseBinary(ts, 0, TermLevel);
    Settle(ts, 0, TermLevel, AssignmentLevel);
  }

  /** `2 * 2` after the comma: a product, at every level down to assignment. */
  lemma {:induction false} CommaRightOperand(ts: seq<Token>)
    requires Kinds(ts) == CommaKinds
    ensures ParseExpr(ts, 4, AssignmentLevel)
      == Parsed(Some(Binary(Literal(ts[4].literal), ts[5], Literal(ts[6].literal))), 7, [])
  {
    assert ts[4].kind == NumberLit && ts[5].kind == Star && ts[6].kind == NumberLit && ts[7].kind == Semicolon;
    var product := Binary(Literal(ts[4].literal), ts[5], Literal(ts[6].literal));
    LiteralOperand(ts, 4);
    LiteralOperand(ts, 6);
    BinaryStep(ts, FactorLevel, Literal(ts[4].literal), 5, []);
    assert ParseBinaryRest(ts, FactorLevel, product, 7, []) == Parsed(Some(product), 7, []);
    assert ParseExpr(ts, 4, FactorLevel) == ParseBinary(ts, 4, FactorLevel);
    Settle(ts, 4, FactorLevel, AssignmentLevel);
  }

  /** `2 + 2, 2 * 2` is a comma of a sum and a product. */
  lemma {:induction false} CommaExpression(ts: seq<Token>)
    requires Kinds(ts) == CommaKinds
    ensures ParseExpr(ts, 0, CommaLevel) == Parsed(Some(
      Binary(Binary(Literal(ts[0].literal), ts[1], Literal(ts[2].literal)), ts[3],
             Binary(Literal(ts[4].literal), ts[5], Literal(ts[6].literal)))), 7, [])
  {
    assert ts[3].kind == Comma && ts[7].kind == Semicolon;
    CommaLeftOperand(ts);
    CommaRightOperand(ts);
    CommaOfTwo(ts, Binary(Literal(ts[0].literal), ts[1], Literal(ts[2].literal)),
               Binary(Literal(ts[4].literal), ts[5], Literal(ts[6].literal)));
  }

  /** Two assignment-level operands around a `,` and before a `;` parse as one comma node. */
  lemma {:induction false} CommaOfTwo(ts: seq<Token>, left: Expr, right: Expr)
    requires WellFormed(ts) && 8 <= |ts| && ts[3].kind == Comma && ts[7].kind == Semicolon
    requires ParseExpr(ts, 0, AssignmentLevel) == Parsed(Some(left), 3, [])
    requires ParseExpr(ts, 4, AssignmentLevel) == Parsed(Some(right), 7, [])
    ensures ParseExpr(ts, 0, CommaLevel) == Parsed(Some(Binary(left, ts[3], right)), 7, [])
  {
    BinaryFromOperand(ts, 0, CommaLevel);
    BinaryStep(ts, CommaLevel, left, 3, []);
    BinaryStop(ts, CommaLevel, Binary(left, ts[3], right), 7, []);
    BinaryLevelExpr(ts, 0, CommaLevel);
  }

  /** A binary level parses its first operand and hands it to the operator loop. */
  lemma BinaryFromOperand(ts: seq<Token>, pos: nat, lv: Level)
    requires WellFormed(ts) && pos < |ts| && IsBinaryLevel(lv)
    requires ParseExpr(ts, pos, Operand(lv)).value.Some?
    ensures var first := ParseExpr(ts, pos, Operand(lv));
      ParseBinary(ts, pos, lv) == ParseBinaryRest(ts, lv, first.value.value, first.pos, first.errors)
  {
  }

  /** The operator loop stops at a token that is not one of its level's operators. */
  lemma BinaryStop(ts: seq<Token>, lv: Level, left: Expr, pos: nat, errors: seq<SyntaxError>)
    requires WellFormed(ts) && pos < |ts| && IsBinaryLevel(lv) && !Matches(ts, pos, Operators(lv))
    ensures ParseBinaryRest(ts, lv, left, pos, errors) == Parsed(Some(left), pos, errors)
  {
  }

  /** `2 + 2, 2 * 2;` is one expression statement, a comma of a sum and a product. */
  lemma {:induction false} CommaExample(ts: seq<Token>)
    requires Kinds(ts) == CommaKinds
    ensures ParseProgram(ts) == Program([Expression(
      Binary(Binary(Literal(ts[0].literal), ts[1], Literal(ts[2].literal)), ts[3],
             Binary(Literal(ts[4].literal), ts[5], Literal(ts[6].literal))))], [])
  {
    assert ts[0].kind == NumberLit && ts[7].kind == Semicolon && ts[8].kind == Eof;
    CommaExpression(ts);
    SingleExpressionStatement(ts);
  }

  /** The kinds of the tokens of `true ? 1 : 0;`. */
  const TernaryKinds := [True, QuestionMark, NumberLit, Colon, NumberLit, Semicolon, Eof]

  /** The three parts of `true ? 1 : 0`, each a literal at equality level. */
  lemma {:induction false} TernaryParts(ts: seq<Token>)
    requires Kinds(ts) == TernaryKinds
    ensures ParseExpr(ts, 0, EqualityLevel) == Parsed(Some(Literal(BoolValue(true))), 1, [])
    ensures ParseExpr(ts, 2, EqualityLevel) == Parsed(Some(Literal(ts[2].literal)), 3, [])
    ensures ParseExpr(ts, 4, EqualityLevel) == Parsed(Some(Literal(ts[4].literal)), 5, [])
  {
    assert ts[0].kind == True && ts[1].kind == QuestionMark && ts[2].kind == NumberLit && ts[3].kind == Colon;
    assert ts[4].kind == NumberLit && ts[5].kind == Semicolon;
    TrueOperand(ts, 0);
    Settle(ts, 0, UnaryLevel, EqualityLevel);
    LiteralOperand(ts, 2);
    Settle(ts, 2, UnaryLevel, EqualityLevel);
    LiteralOperand(ts, 4);
    Settle(ts, 4, UnaryLevel, EqualityLevel);
  }

  lemma {:induction false} TernaryLevelParse(ts: seq<Token>)
    requires Kinds(ts) == TernaryKinds
    ensures ParseExpr(ts, 0, TernaryLevel)
      == Parsed(Some(Ternary(Literal(BoolValue(true)), Literal(ts[2].literal), Literal(ts[4].literal))), 5, [])
  {
    assert ts[1].kind == QuestionMark && ts[3].kind == Colon;
    TernaryParts(ts);
    BinaryLevelExpr(ts, 0, EqualityLevel);
    BinaryLevelExpr(ts, 2, EqualityLevel);
    BinaryLevelExpr(ts, 4, EqualityLevel);
    TernaryBranchesParse(ts);
    assert ParseExpr(ts, 0, TernaryLevel) == ParseTernary(ts, 0);
  }

  /** At a binary level the precedence function is `ParseBinary`. */
  lemma BinaryLevelExpr(ts: seq<Token>, pos: nat, lv: Level)
    requires WellFormed(ts) && pos < |ts| && IsBinaryLevel(lv)
    ensures ParseExpr(ts, pos, lv) == ParseBinary(ts, pos, lv)
  {
  }

  /** The branches `1 : 0` of `true ? 1 : 0`. */
  lemma {:induction false} TernaryBranchesParse(ts: seq<Token>)
    requires Kinds(ts) == TernaryKinds
    requires ParseBinary(ts, 2, EqualityLevel) == Parsed(Some(Literal(ts[2].literal)), 3, [])
    requires ParseBinary(ts, 4, EqualityLevel) == Parsed(Some(Literal(ts[4].literal)), 5, [])
    ensures ParseBranches(ts, 2) == Parsed(Some((Literal(ts[2].literal), Literal(ts[4].literal))), 5, [])
  {
    assert ts[3].kind == Colon;
  }

  /** `true ? 1 : 0` is a ternary over its three literals. */
  lemma {:induction false} TernaryExpression(ts: seq<Token>)
    requires Kinds(ts) == TernaryKinds
    ensures ParseExpr(ts, 0, CommaLevel)
      == Parsed(Some(Ternary(Literal(BoolValue(true)), Literal(ts[2].literal), Literal(ts[4].literal))), 5, [])
  {
    assert ts[5].kind == Semicolon;
    TernaryLevelParse(ts);
    Settle(ts, 0, TernaryLevel, CommaLevel);
  }

  /** `true ? 1 : 0;` is one expression statement holding a ternary. */
  lemma {:induction false} TernaryExample(ts: seq<Token>)
    requires Kinds(ts) == TernaryKinds
    ensures ParseProgram(ts) == Program([Expression(
      Ternary(Literal(BoolValue(true)), Literal(ts[2].literal), Literal(ts[4].literal)))], [])
  {
    assert ts[0].kind == True && ts[5].kind == Semicolon && ts[6].kind == Eof;
    TernaryExpression(ts);
    SingleExpressionStatement(ts);
  }

  /** `+2;`: one statement and one diagnostic at the `+`. */
  lemma {:induction false} LeadingPlusExample(ts: seq<Token>)
    requires Kinds(ts) == [Plus, NumberLit, Semicolon, Eof]
    ensures ParseProgram(ts)
      == Program([Expression(Literal(ts[1].literal))], [SyntaxError(ts[0], MissingLeftOperand)])
  {
    assert ts[0].kind == Plus && ts[1].kind == NumberLit && ts[2].kind == Semicolon && ts[3].kind == Eof;
    var errors := [SyntaxError(ts[0], MissingLeftOperand)];
    assert ParseExpr(ts, 0, UnaryLevel) == Parsed(Some(Literal(ts[1].literal)), 2, errors) by {
      assert ParsePrimary(ts, 1) == Parsed(Some(Literal(ts[1].literal)), 2, []);
      assert !Matches(ts, 0, [Bang, Minus]) && Matches(ts, 0, LeadingBinaryOperators);
      assert ParseUnary(ts, 0) == Parsed(Some(Literal(ts[1].literal)), 2, errors);
    }
    Settle(ts, 0, UnaryLevel, CommaLevel);
    SingleExpressionStatement(ts);
  }
}
