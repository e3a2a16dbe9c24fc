/**
 * The recursive-descent parser of Parser.kt as a class over a token list and a mutable
 * cursor. A `ParseError` thrown by a production is a `None` result; every method is
 * proved to stop where the corresponding `Grammar` function says, with that function's
 * result, after reporting exactly that function's errors through `Lox`.
 */
module Parsing {
  import opened Results
  import opened SeqFacts
  import opened Syntax
  import opened Diagnostics
  import opened Grammar
  import opened GrammarFacts

  /** One turn of the loop of a binary level: an operator, then an operand at the next level. */
  lemma BinaryRestStep(ts: seq<Token>, lv: Level, left: Expr, pos: nat, errors: seq<SyntaxError>)
    requires WellFormed(ts) && pos < |ts| && IsBinaryLevel(lv) && Matches(ts, pos, Operators(lv))
    ensures var right := ParseExpr(ts, pos + 1, Operand(lv));
      ParseBinaryRest(ts, lv, left, pos, errors)
        == if right.value.None? then Threw(right.pos, errors + right.errors)
           else ParseBinaryRest(ts, lv, Binary(left, ts[pos], right.value.value), right.pos, errors + right.errors)
  {
  }

  /** One turn of the loop of `parse()`: a declaration is parsed, kept when it parsed, and its errors logged. */
  lemma {:induction false} ParseFromStep(ts: seq<Token>, start: nat, pos: nat, statements: seq<Stmt>, errors: seq<SyntaxError>)
    requires WellFormed(ts) && start < |ts| && pos < |ts| && !AtEnd(ts, pos)
    requires ParseFrom(ts, start)
      == Program(statements + ParseFrom(ts, pos).statements, errors + ParseFrom(ts, pos).errors)
    ensures var d := ParseDeclaration(ts, pos);
      var rest := ParseFrom(ts, d.pos);
      var kept := if d.value.Some? then [d.value.value] else [];
      ParseFrom(ts, start) == Program((statements + kept) + rest.statements, (errors + d.errors) + rest.errors)
  {
    var d := ParseDeclaration(ts, pos);
    var rest := ParseFrom(ts, d.pos);
    var kept := if d.value.Some? then [d.value.value] else [];
    assert ParseFrom(ts, pos) == Program(kept + rest.statements, d.errors + rest.errors);
    AppendAssociative(statements, kept, rest.statements);
    AppendAssociative(errors, d.errors, rest.errors);
  }

  class Parser {
    const tokens: seq<Token>
    var current: nat

    ghost predicate Valid()
      reads this
    {
      WellFormed(tokens) && current < |tokens|
    }

    constructor (tokens: seq<Token>)
      requires WellFormed(tokens)
      ensures Valid() && this.tokens == tokens && current == 0
    {
      this.tokens := tokens;
      current := 0;
    }

    // ---------------------------------------------------------------- cursor primitives

    function IsAtEnd(): bool
      reads this
      requires Valid()
    {
      tokens[current].kind == Eof
    }

    function Peek(): Token
      reads this
      requires Valid()
    {
      tokens[current]
    }

    function Previous(): Token
      reads this
      requires Valid() && 0 < current
    {
      tokens[current - 1]
    }

    function CheckKind(kind: TokenType): bool
      reads this
      requires Valid()
    {
      if IsAtEnd() then false else Peek().kind == kind
    }

    /** `advance`: never moves past EOF, and returns the token before the cursor. */
    method Advance() returns (t: Token)
      requires Valid() && (0 < current || !AtEnd(tokens, current))
      modifies this
      ensures Valid() && 0 < current
      ensures current == Advanced(tokens, old(current))
      ensures !AtEnd(tokens, old(current)) ==> t == tokens[old(current)]
    {
      if !IsAtEnd() {
        current := current + 1;
      }
      t := Previous();
    }

    /** `match(kinds...)`: consumes one token exactly when it is of one of `kinds`. */
    method Match(kinds: seq<TokenType>) returns (matched: bool)
      requires Valid()
      modifies this
      ensures Valid()
      ensures matched == Matches(tokens, old(current), kinds)
      ensures current == if matched then old(current) + 1 else old(current)
    {
      for i := 0 to |kinds|
        invariant current == old(current)
        invariant forall j :: 0 <= j < i ==> !Check(tokens, current, kinds[j])
      {
        if CheckKind(kinds[i]) {
          var _ := Advance();
          return true;
        }
      }
      return false;
    }

    /** `consume(kind, message)`: the expected token, or a reported error and a thrown ParseError. */
    method Consume(kind: TokenType, message: string, lox: Lox) returns (t: Option<Token>)
      requires Valid()
      modifies this, lox
      ensures Valid()
      ensures var r := Grammar.Consume(tokens, old(current), kind, message);
        t == r.value && current == r.pos && Reported(old(lox.State()), lox.State(), r.errors)
    {
      if CheckKind(kind) {
        var token := Advance();
        ReportedNothing(lox.State());
        return Some(token);
      }
      lox.ErrorAtToken(Peek(), message);
      return None;
    }

    // ---------------------------------------------------------------- expressions

    /** `expression()`, which is `comma()`. */
    method Expression(lox: Lox) returns (e: Option<Expr>)
      requires Valid()
      modifies this, lox
      ensures Valid()
      ensures var r := ParseBinary(tokens, old(current), CommaLevel);
        e == r.value && current == r.pos && Reported(old(lox.State()), lox.State(), r.errors)
      decreases |tokens| - current, Rank(CommaLevel), 1
    {
      e := Binary(CommaLevel, lox);
    }

    /** The precedence function for `lv`: how a binary level calls its operand level. */
    method Precedence(lv: Level, lox: Lox) returns (e: Option<Expr>)
      requires Valid()
      modifies this, lox
      ensures Valid()
      ensures var r := ParseExpr(tokens, old(current), lv);
        e == r.value && current == r.pos && Reported(old(lox.State()), lox.State(), r.errors)
      decreases |tokens| - current, Rank(lv), 1
    {
      if IsBinaryLevel(lv) {
        e := Binary(lv, lox);
      } else if lv == AssignmentLevel {
        e := Assignment(lox);
      } else if lv == TernaryLevel {
        e := Ternary(lox);
      } else if lv == UnaryLevel {
        e := Unary(lox);
      } else {
        e := Primary(lox);
      }
    }

    /** `comma`, `equality`, `comparison`, `term` and `factor`: an operand, then the operator loop. */
    method Binary(lv: Level, lox: Lox) returns (e: Option<Expr>)
      requires Valid() && IsBinaryLevel(lv)
      modifies this, lox
      ensures Valid()
      ensures var r := ParseBinary(tokens, old(current), lv);
        e == r.value && current == r.pos && Reported(old(lox.State()), lox.State(), r.errors)
      decreases |tokens| - current, Rank(lv), 0
    {
      ghost var start, c0 := current, lox.State();
      var first := Precedence(Operand(lv), lox);
      ghost var parsed := ParseExpr(tokens, start, Operand(lv));
      if first.None? {
        return None;
      }
      ghost var at, c1 := current, lox.State();
      e := OperatorLoop(lv, first.value, lox);
      BinaryRestAccumulates(tokens, lv, first.value, at, parsed.errors);
      ReportedChain(c0, c1, lox.State(), parsed.errors, ParseBinaryRest(tokens, lv, first.value, at, []).errors);
    }

    /** The `while (match(ops)) expr = Binary(expr, previous(), next())` loop of a binary level. */
    method OperatorLoop(lv: Level, left: Expr, lox: Lox) returns (e: Option<Expr>)
      requires Valid() && IsBinaryLevel(lv)
      modifies this, lox
      ensures Valid()
      ensures var r := ParseBinaryRest(tokens, lv, left, old(current), []);
        e == r.value && current == r.pos && Reported(old(lox.State()), lox.State(), r.errors)
      decreases |tokens| - current, Rank(lv), 0
    {
      ghost var start, c0 := current, lox.State();
      ReportedNothing(c0);
      var expr := left;
      ghost var errors: seq<SyntaxError> := [];
      while true
        invariant Valid() && start <= current
        invariant ParseBinaryRest(tokens, lv, expr, current, errors) == ParseBinaryRest(tokens, lv, left, start, [])
        invariant Reported(c0, lox.State(), errors)
        decreases |tokens| - current
      {
        var matched := Match(Operators(lv));
        if !matched {
          return Some(expr);
        }
        var operator := Previous();
        var right;
        right, errors := RightOperand(lv, expr, errors, c0, lox);
        if right.None? {
          return None;
        }
        expr := Expr.Binary(expr, operator, right.value);
      }
    }

    /**
     * The body of the operator loop, after `match(ops)` succeeded: the right operand at
     * the next level. The loop's result is then that of the turns still to come.
     */
    method RightOperand(lv: Level, left: Expr, ghost errors: seq<SyntaxError>, ghost c0: Channel, lox: Lox)
      returns (right: Option<Expr>, ghost errorsAfter: seq<SyntaxError>)
      requires Valid() && IsBinaryLevel(lv) && 0 < current && Matches(tokens, current - 1, Operators(lv))
      requires Reported(c0, lox.State(), errors)
      modifies this, lox
      ensures Valid() && old(current) <= current
      ensures Reported(c0, lox.State(), errorsAfter)
      ensures var pos := old(current) - 1;
        && (right.None? ==> ParseBinaryRest(tokens, lv, left, pos, errors) == Threw(current, errorsAfter))
        && (right.Some? ==>
              ParseBinaryRest(tokens, lv, left, pos, errors)
                == ParseBinaryRest(tokens, lv, Expr.Binary(left, tokens[pos], right.value), current, errorsAfter))
      decreases |tokens| - current, Rank(lv), 0
    {
      ghost var c1 := lox.State();
      right := Precedence(Operand(lv), lox);
      ghost var parsed := ParseExpr(tokens, old(current), Operand(lv));
      ReportedChain(c0, c1, lox.State(), errors, parsed.errors);
      BinaryRestStep(tokens, lv, left, old(current) - 1, errors);
      errorsAfter := errors + parsed.errors;
    }

    /** `assignment`: `target = value`, building Assign only over a variable. */
    method Assignment(lox: Lox) returns (e: Option<Expr>)
      requires Valid()
      modifies this, lox
      ensures Valid()
      ensures var r := ParseAssignment(tokens, old(current));
        e == r.value && current == r.pos && Reported(old(lox.State()), lox.State(), r.errors)
      decreases |tokens| - current, Rank(AssignmentLevel), 0
    {
      ghost var start, c0 := current, lox.State();
      var expr := Ternary(lox);
      ghost var target := ParseTernary(tokens, start);
      if expr.None? {
        return expr;
      }
      var matched := Match([Equal]);
      if !matched {
        return expr;
      }
      var equals := Previous();
      ghost var c1 := lox.State();
      var value := Assignment(lox);
      ghost var assignedValue := ParseAssignment(tokens, target.pos + 1);
      ghost var errors := target.errors + assignedValue.errors;
      ReportedChain(c0, c1, lox.State(), target.errors, assignedValue.errors);
      if value.None? {
        assert ParseAssignment(tokens, start) == Threw(current, errors);
        return None;
      }
      if expr.value.Variable? {
        assert ParseAssignment(tokens, start) == Parsed(Some(Assign(expr.value.name, value.value)), current, errors);
        return Some(Assign(expr.value.name, value.value));
      }
      ghost var c2 := lox.State();
      lox.ErrorAtToken(equals, InvalidAssignmentTarget);
      ghost var invalid := [SyntaxError(equals, InvalidAssignmentTarget)];
      assert ParseAssignment(tokens, start) == Parsed(expr, current, errors + invalid);
      ReportedChain(c0, c2, lox.State(), errors, invalid);
      return expr;
    }

    /** `ternary`: `condition ? ifTrue : ifFalse`, all three at equality precedence. */
    method Ternary(lox: Lox) returns (e: Option<Expr>)
      requires Valid()
      modifies this, lox
      ensures Valid()
      ensures var r := ParseTernary(tokens, old(current));
        e == r.value && current == r.pos && Reported(old(lox.State()), lox.State(), r.errors)
      decreases |tokens| - current, Rank(TernaryLevel), 0
    {
      ghost var start, c0 := current, lox.State();
      var condition := Binary(EqualityLevel, lox);
      ghost var parsed := ParseBinary(tokens, start, EqualityLevel);
      if condition.None? {
        return condition;
      }
      var matched := Match([QuestionMark]);
      if !matched {
        return condition;
      }
      ghost var c1 := lox.State();
      var branches := Branches(lox);
      ghost var errors := parsed.errors + ParseBranches(tokens, parsed.pos + 1).errors;
      ReportedChain(c0, c1, lox.State(), parsed.errors, ParseBranches(tokens, parsed.pos + 1).errors);
      if branches.None? {
        assert ParseTernary(tokens, start) == Threw(current, errors);
        return None;
      }
      e := Some(Expr.Ternary(condition.value, branches.value.0, branches.value.1));
      assert ParseTernary(tokens, start) == Parsed(e, current, errors);
    }

    /** The part of `ternary` after the `?`: the two branches around the `:`. */
    method Branches(lox: Lox) returns (b: Option<(Expr, Expr)>)
      requires Valid()
      modifies this, lox
      ensures Valid()
      ensures var r := ParseBranches(tokens, old(current));
        b == r.value && current == r.pos && Reported(old(lox.State()), lox.State(), r.errors)
      decreases |tokens| - current, Rank(TernaryLevel), 1
    {
      ghost var start, c0 := current, lox.State();
      ReportedNothing(c0);
      var ifTrue := Binary(EqualityLevel, lox);
      if ifTrue.None? {
        return None;
      }
      b := ElseBranch(ifTrue.value, start, c0, lox);
    }

    /** The rest of the branches once the first parsed: the `:` and the second branch. */
    method ElseBranch(ifTrue: Expr, ghost start: nat, ghost c0: Channel, lox: Lox) returns (b: Option<(Expr, Expr)>)
      requires Valid() && start < |tokens|
      requires var t := ParseBinary(tokens, start, EqualityLevel);
        t.value == Some(ifTrue) && t.pos == current && Reported(c0, lox.State(), t.errors)
      modifies this, lox
      ensures Valid()
      ensures var r := ParseBranches(tokens, start);
        b == r.value && current == r.pos && Reported(c0, lox.State(), r.errors)
      decreases |tokens| - start, Rank(TernaryLevel), 0
    {
      ghost var parsed := ParseBinary(tokens, start, EqualityLevel);
      ghost var c1 := lox.State();
      var colon := Consume(Colon, ExpectedColon, lox);
      if colon.None? {
        ghost var errors := [SyntaxError(tokens[parsed.pos], ExpectedColon)];
        assert ParseBranches(tokens, start) == Threw(parsed.pos, parsed.errors + errors);
        ReportedChain(c0, c1, lox.State(), parsed.errors, errors);
        return None;
      }
      ReportedNothing(c1);
      ghost var after := ParseBinary(tokens, parsed.pos + 1, EqualityLevel);
      var ifFalse := Binary(EqualityLevel, lox);
      ReportedChain(c0, c1, lox.State(), parsed.errors, after.errors);
      assert ParseBranches(tokens, start).errors == parsed.errors + after.errors;
      if ifFalse.None? {
        return None;
      }
      return Some((ifTrue, ifFalse.value));
    }

    /** `unary`: prefix `!` and `-`, and the error production for a leading binary operator. */
    method Unary(lox: Lox) returns (e: Option<Expr>)
      requires Valid()
      modifies this, lox
      ensures Valid()
      ensures var r := ParseUnary(tokens, old(current));
        e == r.value && current == r.pos && Reported(old(lox.State()), lox.State(), r.errors)
      decreases |tokens| - current, Rank(UnaryLevel), 0
    {
      var prefix := Match([Bang, Minus]);
      if prefix {
        e := PrefixOperator(lox);
        return;
      }
      var leading := Match(LeadingBinaryOperators);
      if leading {
        e := LeadingOperator(lox);
      } else {
        e := Primary(lox);
      }
    }

    /** The prefix branch of `unary`: the operator just matched, then a unary operand. */
    method PrefixOperator(lox: Lox) returns (e: Option<Expr>)
      requires Valid() && 0 < current && Matches(tokens, current - 1, [Bang, Minus])
      modifies this, lox
      ensures Valid()
      ensures var r := ParseUnary(tokens, old(current) - 1);
        e == r.value && current == r.pos && Reported(old(lox.State()), lox.State(), r.errors)
      decreases |tokens| - current, Rank(UnaryLevel), 1
    {
      var operator := Previous();
      var right := Unary(lox);
      if right.None? {
        return None;
      }
      return Some(Expr.Unary(operator, right.value));
    }

    /** The error production of `unary`: report the operator, then parse the right operand alone. */
    method LeadingOperator(lox: Lox) returns (e: Option<Expr>)
      requires Valid() && 0 < current
      requires !Matches(tokens, current - 1, [Bang, Minus]) && Matches(tokens, current - 1, LeadingBinaryOperators)
      modifies this, lox
      ensures Valid()
      ensures var r := ParseUnary(tokens, old(current) - 1);
        e == r.value && current == r.pos && Reported(old(lox.State()), lox.State(), r.errors)
      decreases |tokens| - current, Rank(UnaryLevel), 0
    {
      ghost var start, c0 := current, lox.State();
      lox.ErrorAtToken(Previous(), MissingLeftOperand);
      ghost var c1 := lox.State();
      e := Primary(lox);
      ghost var operand := ParsePrimary(tokens, start);
      ReportedChain(c0, c1, lox.State(), [SyntaxError(tokens[start - 1], MissingLeftOperand)], operand.errors);
      assert ParseUnary(tokens, start - 1)
        == Parsed(operand.value, operand.pos, [SyntaxError(tokens[start - 1], MissingLeftOperand)] + operand.errors);
    }

    /** `primary`: a literal, a variable or a parenthesised expression; anything else throws. */
    method Primary(lox: Lox) returns (e: Option<Expr>)
      requires Valid()
      modifies this, lox
      ensures Valid()
      ensures var r := ParsePrimary(tokens, old(current));
        e == r.value && current == r.pos && Reported(old(lox.State()), lox.State(), r.errors)
      decreases |tokens| - current, Rank(PrimaryLevel), 0
    {
      ReportedNothing(lox.State());
      var matched := Match([False]);
      if matched {
        return Some(Literal(BoolValue(false)));
      }
      matched := Match([True]);
      if matched {
        return Some(Literal(BoolValue(true)));
      }
      matched := Match([Nil]);
      if matched {
        return Some(Literal(NilValue));
      }
      matched := Match([NumberLit, StringLit]);
      if matched {
        return Some(Literal(Previous().literal));
      }
      matched := Match([Identifier]);
      if matched {
        return Some(Variable(Previous()));
      }
      matched := Match([LeftParen]);
      if matched {
        e := Group(lox);
        return;
      }
      lox.ErrorAtToken(Peek(), ExpectExpression);
      return None;
    }

    /** The parenthesised branch of `primary`, after the `(`: an expression, then `)`. */
    method Group(lox: Lox) returns (e: Option<Expr>)
      requires Valid()
      modifies this, lox
      ensures Valid()
      ensures var r := ParseGroup(tokens, old(current));
        e == r.value && current == r.pos && Reported(old(lox.State()), lox.State(), r.errors)
      decreases |tokens| - current, Rank(CommaLevel) + 1, 0
    {
      ghost var at, c0 := current, lox.State();
      var inner := Expression(lox);
      ghost var parsed := ParseBinary(tokens, at, CommaLevel);
      if inner.None? {
        return None;
      }
      ghost var c1 := lox.State();
      var closing := Consume(RightParen, ExpectRightParen, lox);
      if closing.None? {
        ReportedChain(c0, c1, lox.State(), parsed.errors, [SyntaxError(tokens[parsed.pos], ExpectRightParen)]);
        return None;
      }
      ReportedNothing(c1);
      return Some(Grouping(inner.value));
    }

    // ---------------------------------------------------------------- statements

    /** `printStatement()`, entered after `print`. */
    method PrintStatement(lox: Lox) returns (s: Option<Stmt>)
      requires Valid()
      modifies this, lox
      ensures Valid()
      ensures var r := ParseTerminated(tokens, old(current), true);
        s == r.value && current == r.pos && Reported(old(lox.State()), lox.State(), r.errors)
    {
      ghost var start, c0 := current, lox.State();
      var value := Expression(lox);
      ghost var parsed := ParseBinary(tokens, start, CommaLevel);
      if value.None? {
        return None;
      }
      ghost var c1 := lox.State();
      var semicolon := Consume(Semicolon, ExpectValueSemicolon, lox);
      if semicolon.None? {
        ReportedChain(c0, c1, lox.State(), parsed.errors, [SyntaxError(tokens[parsed.pos], ExpectValueSemicolon)]);
        return None;
      }
      ReportedNothing(c1);
      return Some(Stmt.Print(value.value));
    }

    /** `expressionStatement()`. */
    method ExpressionStatement(lox: Lox) returns (s: Option<Stmt>)
      requires Valid()
      modifies this, lox
      ensures Valid()
      ensures var r := ParseTerminated(tokens, old(current), false);
        s == r.value && current == r.pos && Reported(old(lox.State()), lox.State(), r.errors)
    {
      ghost var start, c0 := current, lox.State();
      var expr := Expression(lox);
      ghost var parsed := ParseBinary(tokens, start, CommaLevel);
      if expr.None? {
        return None;
      }
      ghost var c1 := lox.State();
      var semicolon := Consume(Semicolon, ExpectExpressionSemicolon, lox);
      if semicolon.None? {
        ReportedChain(c0, c1, lox.State(), parsed.errors, [SyntaxError(tokens[parsed.pos], ExpectExpressionSemicolon)]);
        return None;
      }
      ReportedNothing(c1);
      return Some(Stmt.Expression(expr.value));
    }

    /** `statement()`. */
    method Statement(lox: Lox) returns (s: Option<Stmt>)
      requires Valid()
      modifies this, lox
      ensures Valid()
      ensures var r := ParseStatement(tokens, old(current));
        s == r.value && current == r.pos && Reported(old(lox.State()), lox.State(), r.errors)
    {
      var isPrint := Match([TokenType.Print]);
      if isPrint {
        s := PrintStatement(lox);
      } else {
        s := ExpressionStatement(lox);
      }
    }

    /** `varDeclaration()`, entered after `var`. */
    method VarDeclaration(lox: Lox) returns (s: Option<Stmt>)
      requires Valid()
      modifies this, lox
      ensures Valid()
      ensures var r := ParseVarDeclaration(tokens, old(current));
        s == r.value && current == r.pos && Reported(old(lox.State()), lox.State(), r.errors)
    {
      ghost var c0 := lox.State();
      ReportedNothing(c0);
      var name := Consume(Identifier, ExpectVariableName, lox);
      if name.None? {
        return None;
      }
      ghost var afterName := current;
      var initializer := Initializer(lox);
      if initializer.None? {
        return None;
      }
      ghost var semicolonAt, c2, errors := current, lox.State(), ParseInitializer(tokens, afterName).errors;
      var semicolon := Consume(Semicolon, ExpectInitializerSemicolon, lox);
      if semicolon.None? {
        ReportedChain(c0, c2, lox.State(), errors, [SyntaxError(tokens[semicolonAt], ExpectInitializerSemicolon)]);
        return None;
      }
      ReportedNothing(c2);
      return Some(Stmt.Var(name.value, initializer.value));
    }

    /** The optional `= expression` after a variable's name. */
    method Initializer(lox: Lox) returns (init: Option<Option<Expr>>)
      requires Valid()
      modifies this, lox
      ensures Valid()
      ensures var r := ParseInitializer(tokens, old(current));
        init == r.value && current == r.pos && Reported(old(lox.State()), lox.State(), r.errors)
    {
      ReportedNothing(lox.State());
      var hasInitializer := Match([Equal]);
      if !hasInitializer {
        return Some(None);
      }
      var value := Expression(lox);
      if value.None? {
        return None;
      }
      return Some(value);
    }

    /** `declaration()`: a declaration, or None after a ParseError and `synchronize()`. */
    method Declaration(lox: Lox) returns (s: Option<Stmt>)
      requires Valid() && !AtEnd(tokens, current)
      modifies this, lox
      ensures Valid()
      ensures var r := ParseDeclaration(tokens, old(current));
        s == r.value && current == r.pos && Reported(old(lox.State()), lox.State(), r.errors)
    {
      var isVar := Match([TokenType.Var]);
      if isVar {
        s := VarDeclaration(lox);
      } else {
        s := Statement(lox);
      }
      if s.None? {
        Synchronize();
      }
    }

    /**
     * `synchronize()`: skip to the next statement boundary. Each turn of the loop advances,
     * which the loop in Parser.kt does not (see `Grammar.SynchronizeAsWritten`).
     */
    method Synchronize()
      requires Valid() && (0 < current || !AtEnd(tokens, current))
      modifies this
      ensures Valid() && current == Grammar.Synchronize(tokens, old(current))
    {
      var _ := Advance();
      while !IsAtEnd()
        invariant Valid() && 0 < current
        invariant SkipToSyncPoint(tokens, current) == Grammar.Synchronize(tokens, old(current))
        decreases |tokens| - current
      {
        if Previous().kind == Semicolon {
          return;
        }
        if Peek().kind in StatementStarts {
          return;
        }
        var _ := Advance();
      }
      var _ := Advance();
    }

    /** `parse()`: declarations up to EOF, keeping those that parsed. */
    method Parse(lox: Lox) returns (statements: seq<Stmt>)
      requires Valid()
      modifies this, lox
      ensures Valid()
      ensures var p := ParseFrom(tokens, old(current));
        statements == p.statements && Reported(old(lox.State()), lox.State(), p.errors)
    {
      ghost var start, c0 := current, lox.State();
      ReportedNothing(c0);
      statements := [];
      ghost var errors: seq<SyntaxError> := [];
      while !IsAtEnd()
        invariant Valid()
        invariant var rest := ParseFrom(tokens, current);
          ParseFrom(tokens, start) == Program(statements + rest.statements, errors + rest.errors)
        invariant Reported(c0, lox.State(), errors)
        decreases |tokens| - current
      {
        ghost var at, c1 := current, lox.State();
        ParseFromStep(tokens, start, at, statements, errors);
        var declaration := Declaration(lox);
        ghost var d := ParseDeclaration(tokens, at);
        ReportedChain(c0, c1, lox.State(), errors, d.errors);
        var kept := if declaration.Some? then [declaration.value] else [];
        statements := statements + kept;
        errors := errors + d.errors;
      }
      assert statements + [] == statements && errors + [] == errors;
    }
  }
}
