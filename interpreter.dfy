/**
 * The expression evaluator (Interpreter.kt): truthiness, equality, the operators with
 * their type checks, the ternary and `stringify`. Evaluation raises by returning a
 * `Failure` carrying the runtime error; the double arithmetic, comparisons and
 * `Double.toString` come from the `Host` record.
 */
module Interpreting {
  import opened Results
  import opened Numbers
  import opened Syntax
  import opened Diagnostics
  import opened Runtime

  const OperandMustBeNumber := "Operand must be a number."
  const OperandsMustBeNumbers := "Operands must be numbers."
  const DivisionByZero := "Division by zero."
  const OperandsMustBeAddable := "Operands must be two numbers or at least one of them should be a string."

  /** The expressions Interpreter.kt has a visitor method for. */
  predicate Evaluable(e: Expr) {
    match e
    case Literal(_) => true
    case Grouping(inner) => Evaluable(inner)
    case Unary(_, right) => Evaluable(right)
    case Binary(left, _, right) => Evaluable(left) && Evaluable(right)
    case Ternary(condition, ifTrue, ifFalse) => Evaluable(condition) && Evaluable(ifTrue) && Evaluable(ifFalse)
    case _ => false
  }

  /** A literal's runtime value. */
  function LiteralRuntimeValue(v: LiteralValue): Value {
    match v
    case NilValue => NilV
    case BoolValue(b) => BoolV(b)
    case NumberValue(n) => NumberV(n)
    case StringValue(s) => StringV(s)
  }

  /** `isTruthy`: nil is false, a boolean is itself, everything else is true. */
  predicate IsTruthy(v: Value) {
    match v
    case NilV => false
    case BoolV(b) => b
    case _ => true
  }

  /** `isEqual` is Kotlin's `==` on boxed values: `Double.equals` on numbers, identity on functions. */
  predicate IsEqual(a: Value, b: Value) {
    if a.NumberV? && b.NumberV? then SameDouble(a.n, b.n) else a == b
  }

  /** `Double.toString` with a trailing ".0" removed. */
  function StripPointZero(text: string): (s: string)
    ensures if |text| >= 2 && text[|text| - 2..] == ".0" then s + ".0" == text else s == text
  {
    if |text| >= 2 && text[|text| - 2..] == ".0" then
      assert text == text[..|text| - 2] + text[|text| - 2..];
      text[..|text| - 2]
    else text
  }

  function BoolText(b: bool): string {
    if b then "true" else "false"
  }

  /** `stringify`: "nil", the number's text without a trailing ".0", or the value's own text. */
  function Stringify(v: Value, host: Host): string {
    match v
    case NilV => "nil"
    case BoolV(b) => BoolText(b)
    case NumberV(n) => StripPointZero(host.text(n))
    case StringV(s) => s
    case FunctionV(f) => f.ToString()
  }

  /** `visitUnaryExpr` once the operand is evaluated. */
  function ApplyUnary(operator: Token, right: Value, host: Host): (r: Result<Value, RuntimeError>)
    ensures r.Failure? <==> operator.kind == Minus && !right.NumberV?
    ensures r.Failure? ==> r.error == RuntimeError(operator, OperandMustBeNumber)
  {
    match operator.kind
    case Bang => Success(BoolV(!IsTruthy(right)))
    case Minus =>
      if right.NumberV? then Success(NumberV(host.negate(right.n)))
      else Failure(RuntimeError(operator, OperandMustBeNumber))
    case _ => Success(NilV)
  }

  /** `checkNumberOperands`: the callback's value when both operands are numbers, else the type error. */
  function NumberOperands(operator: Token, left: Value, right: Value, callback: (Number, Number) -> Result<Value, RuntimeError>)
    : Result<Value, RuntimeError>
  {
    if left.NumberV? && right.NumberV? then callback(left.n, right.n)
    else Failure(RuntimeError(operator, OperandsMustBeNumbers))
  }

  /** `+`: numeric addition, else concatenation with a string on either side, else the type error. */
  function Add(operator: Token, left: Value, right: Value, host: Host): Result<Value, RuntimeError> {
    if left.NumberV? && right.NumberV? then Success(NumberV(host.add(left.n, right.n)))
    else if left.StringV? then Success(StringV(left.s + Stringify(right, host)))
    else if right.StringV? then Success(StringV(Stringify(left, host) + right.s))
    else Failure(RuntimeError(operator, OperandsMustBeAddable))
  }

  /** `visitBinaryExpr` once both operands are evaluated. `<=` computes `l >= r`, as Interpreter.kt does. */
  function ApplyBinary(operator: Token, left: Value, right: Value, host: Host): (r: Result<Value, RuntimeError>)
    ensures r.Failure? ==> r.error.token == operator
    ensures r.Failure? ==> r.error.message in {OperandsMustBeNumbers, DivisionByZero, OperandsMustBeAddable}
    ensures operator.kind !in {Minus, Slash, Star, Plus, Greater, GreaterEqual, Less, LessEqual} ==> r.Success?
  {
    match operator.kind
    case Minus => NumberOperands(operator, left, right, (l, r) => Success(NumberV(host.subtract(l, r))))
    case Slash =>
      NumberOperands(operator, left, right,
        (l, r) => if IsZero(r) then Failure(RuntimeError(operator, DivisionByZero)) else Success(NumberV(host.divide(l, r))))
    case Star => NumberOperands(operator, left, right, (l, r) => Success(NumberV(host.multiply(l, r))))
    case Plus => Add(operator, left, right, host)
    case Greater => NumberOperands(operator, left, right, (l, r) => Success(BoolV(host.greater(l, r))))
    case GreaterEqual => NumberOperands(operator, left, right, (l, r) => Success(BoolV(host.greaterEqual(l, r))))
    case Less => NumberOperands(operator, left, right, (l, r) => Success(BoolV(host.less(l, r))))
    case LessEqual => NumberOperands(operator, left, right, (l, r) => Success(BoolV(host.greaterEqual(l, r))))
    case BangEqual => Success(BoolV(!IsEqual(left, right)))
    case EqualEqual => Success(BoolV(IsEqual(left, right)))
    case _ => Success(NilV)
  }

  /** `evaluate`: operands left to right, each fully, before the operator; the ternary evaluates one branch. */
  function Evaluate(e: Expr, host: Host): Result<Value, RuntimeError>
    requires Evaluable(e)
  {
    match e
    case Literal(v) => Success(LiteralRuntimeValue(v))
    case Grouping(inner) => Evaluate(inner, host)
    case Unary(operator, right) =>
      var r := Evaluate(right, host);
      if r.Failure? then r else ApplyUnary(operator, r.value, host)
    case Binary(left, operator, right) =>
      var l := Evaluate(left, host);
      if l.Failure? then l
      else
        var r := Evaluate(right, host);
        if r.Failure? then r else ApplyBinary(operator, l.value, r.value, host)
    case Ternary(condition, ifTrue, ifFalse) =>
      var c := Evaluate(condition, host);
      if c.Failure? then c
      else if IsTruthy(c.value) then Evaluate(ifTrue, host)
      else Evaluate(ifFalse, host)
  }

  /**
   * `interpret`: the value's text is what `println` writes; a runtime error is handed
   * to `Lox.runtimeError` instead, which logs it and sets `hadRuntimeError`.
   */
  method Interpret(expression: Expr, host: Host, lox: Lox) returns (output: Option<string>)
    requires Evaluable(expression)
    modifies lox
    ensures match Evaluate(expression, host)
            case Success(v) => output == Some(Stringify(v, host)) && lox.State() == old(lox.State())
            case Failure(e) => output == None && lox.State() == Channel(old(lox.stderr) + [RuntimeReport(e)], old(lox.hadError), true)
  {
    var value := Evaluate(expression, host);
    if value.Success? {
      output := Some(Stringify(value.value, host));
    } else {
      lox.RuntimeError(value.error);
      output := None;
    }
  }

  /** `!` never raises, and `!!e` is the truthiness of `e`'s value. */
  lemma DoubleNegation(outer: Token, inner: Token, e: Expr, host: Host)
    requires outer.kind == Bang && inner.kind == Bang && Evaluable(e) && Evaluate(e, host).Success?
    ensures Evaluate(Unary(outer, Unary(inner, e)), host) == Success(BoolV(IsTruthy(Evaluate(e, host).value)))
  {
  }

  /** Unary `-` on anything but a number raises "Operand must be a number." at the operator. */
  lemma NegateNeedsNumber(operator: Token, right: Value, host: Host)
    requires operator.kind == Minus && !right.NumberV?
    ensures ApplyUnary(operator, right, host) == Failure(RuntimeError(operator, OperandMustBeNumber))
  {
  }

  /** The arithmetic and comparison operators raise "Operands must be numbers." at the operator unless both operands are numbers. */
  lemma ArithmeticNeedsNumbers(operator: Token, left: Value, right: Value, host: Host)
    requires operator.kind in {Minus, Slash, Star, Greater, GreaterEqual, Less, LessEqual}
    ensures ApplyBinary(operator, left, right, host).Failure? && ApplyBinary(operator, left, right, host).error.message == OperandsMustBeNumbers
            <==> !(left.NumberV? && right.NumberV?)
    ensures !(left.NumberV? && right.NumberV?) ==>
              ApplyBinary(operator, left, right, host) == Failure(RuntimeError(operator, OperandsMustBeNumbers))
  {
  }

  /** Division by +0.0 or -0.0 raises "Division by zero." whatever the dividend, 0 and NaN included; any other divisor divides. */
  lemma DivisionByZeroForEveryDividend(operator: Token, dividend: Number, divisor: Number, host: Host)
    requires operator.kind == Slash
    ensures ApplyBinary(operator, NumberV(dividend), NumberV(divisor), host)
            == if IsZero(divisor) then Failure(RuntimeError(operator, DivisionByZero))
               else Success(NumberV(host.divide(dividend, divisor)))
  {
  }

  /**
   * `(0 / 0) == (0 / 0)`, the expression of the NaN-equality test, raises "Division by
   * zero." at the first `/`: the equality is never reached, so NaN equality never comes
   * into play here.
   */
  lemma ZeroOverZeroRaises(first: Token, equals: Token, second: Token, host: Host)
    requires first.kind == Slash && second.kind == Slash && equals.kind == EqualEqual
    ensures var zero := Literal(NumberValue(Number(0)));
            var e := Binary(Grouping(Binary(zero, first, zero)), equals, Grouping(Binary(zero, second, zero)));
            Evaluable(e) && Evaluate(e, host) == Failure(RuntimeError(first, DivisionByZero))
  {
    var zero := Literal(NumberValue(Number(0)));
    assert IsZero(Number(0));
    assert Evaluate(Binary(zero, first, zero), host) == Failure(RuntimeError(first, DivisionByZero));
  }

  /** `+` yields a string exactly when one operand is a string and no two numbers are added, and raises only when it can do neither. */
  lemma AddOutcomes(operator: Token, left: Value, right: Value, host: Host)
    requires operator.kind == Plus
    ensures var r := ApplyBinary(operator, left, right, host);
            && (r.Success? && r.value.StringV? <==> left.StringV? || right.StringV?)
            && (r.Success? && r.value.NumberV? <==> left.NumberV? && right.NumberV?)
            && (r.Failure? <==> !(left.NumberV? && right.NumberV?) && !left.StringV? && !right.StringV?)
            && (r.Failure? ==> r.error == RuntimeError(operator, OperandsMustBeAddable))
            && (left.StringV? ==> r == Success(StringV(left.s + Stringify(right, host))))
            && (right.StringV? && !left.StringV? ==> r == Success(StringV(Stringify(left, host) + right.s)))
  {
  }

  /** `"foo" + 42` is `"foo42"`, given that the host prints the double 42 as "42.0". */
  lemma StringPlusNumber(operator: Token, host: Host)
    requires operator.kind == Plus && host.text(Number(0x4045_0000_0000_0000)) == "42.0"
    ensures ApplyBinary(operator, StringV("foo"), NumberV(Number(0x4045_0000_0000_0000)), host) == Success(StringV("foo42"))
  {
    var text := host.text(Number(0x4045_0000_0000_0000));
    assert text[|text| - 2..] == ".0";
    assert StripPointZero(text) == "42";
    assert "foo" + "42" == "foo42";
  }

  /** `==` and `!=` never raise, and `!=` is the negation of `==` on every pair of values. */
  lemma EqualityOperators(equal: Token, notEqual: Token, left: Value, right: Value, host: Host)
    requires equal.kind == EqualEqual && notEqual.kind == BangEqual
    ensures ApplyBinary(equal, left, right, host).Success? && ApplyBinary(notEqual, left, right, host).Success?
    ensures ApplyBinary(equal, left, right, host).value == BoolV(IsEqual(left, right))
    ensures ApplyBinary(notEqual, left, right, host).value == BoolV(!IsEqual(left, right))
  {
  }

  /** Equality is an equivalence relation, every NaN equals every NaN, and values of different kinds are never equal. */
  lemma IsEqualIsEquivalence(a: Value, b: Value, c: Value)
    ensures IsEqual(a, a)
    ensures IsEqual(a, b) ==> IsEqual(b, a)
    ensures IsEqual(a, b) && IsEqual(b, c) ==> IsEqual(a, c)
    ensures a.NumberV? && b.NumberV? && IsNaN(a.n) && IsNaN(b.n) ==> IsEqual(a, b)
    ensures IsEqual(a, b) ==> a.NilV? == b.NilV? && a.BoolV? == b.BoolV? && a.NumberV? == b.NumberV? && a.StringV? == b.StringV?
  {
    if a.NumberV? && b.NumberV? && c.NumberV? {
      SameDoubleIsEquivalence(a.n, b.n, c.n);
    } else if a.NumberV? {
      SameDoubleIsEquivalence(a.n, a.n, a.n);
    }
  }

  /** `<=` as written computes `l >= r`: on numbers it agrees with `>=`, and it raises the same error otherwise. */
  lemma LessEqualComputesGreaterEqual(lessEqual: Token, greaterEqual: Token, left: Value, right: Value, host: Host)
    requires lessEqual.kind == LessEqual && greaterEqual.kind == GreaterEqual
    ensures left.NumberV? && right.NumberV? ==>
              ApplyBinary(lessEqual, left, right, host) == ApplyBinary(greaterEqual, left, right, host)
              == Success(BoolV(host.greaterEqual(left.n, right.n)))
    ensures !(left.NumberV? && right.NumberV?) ==>
              ApplyBinary(lessEqual, left, right, host).error.message == ApplyBinary(greaterEqual, left, right, host).error.message
  {
  }

  /** A binary expression whose left operand raises raises that error, whatever the operator and the right operand. */
  lemma LeftOperandFirst(left: Expr, operator: Token, right: Expr, host: Host)
    requires Evaluable(left) && Evaluable(right) && Evaluate(left, host).Failure?
    ensures Evaluate(Binary(left, operator, right), host) == Evaluate(left, host)
  {
  }

  /** Once the left operand has a value, an error in the right operand wins over any error of the operator. */
  lemma RightOperandBeforeOperator(left: Expr, operator: Token, right: Expr, host: Host)
    requires Evaluable(left) && Evaluable(right) && Evaluate(left, host).Success? && Evaluate(right, host).Failure?
    ensures Evaluate(Binary(left, operator, right), host) == Evaluate(right, host)
  {
  }

  /** The ternary's result is that of the branch its condition selects; the other branch may raise without effect. */
  lemma TernaryEvaluatesOneBranch(condition: Expr, ifTrue: Expr, ifFalse: Expr, host: Host)
    requires Evaluable(condition) && Evaluable(ifTrue) && Evaluable(ifFalse) && Evaluate(condition, host).Success?
    ensures IsTruthy(Evaluate(condition, host).value) ==> Evaluate(Ternary(condition, ifTrue, ifFalse), host) == Evaluate(ifTrue, host)
    ensures !IsTruthy(Evaluate(condition, host).value) ==> Evaluate(Ternary(condition, ifTrue, ifFalse), host) == Evaluate(ifFalse, host)
  {
  }

  /** The operator tokens of an expression's unary and binary nodes. */
  function OperatorTokens(e: Expr): set<Token> {
    match e
    case Grouping(inner) => OperatorTokens(inner)
    case Unary(operator, right) => {operator} + OperatorTokens(right)
    case Binary(left, operator, right) => OperatorTokens(left) + {operator} + OperatorTokens(right)
    case Ternary(condition, ifTrue, ifFalse) => OperatorTokens(condition) + OperatorTokens(ifTrue) + OperatorTokens(ifFalse)
    case _ => {}
  }

  /** Every runtime error is raised at an operator token of the expression, with one of the four operator messages. */
  lemma {:induction false} ErrorsComeFromOperators(e: Expr, host: Host)
    requires Evaluable(e) && Evaluate(e, host).Failure?
    ensures Evaluate(e, host).error.token in OperatorTokens(e)
    ensures Evaluate(e, host).error.message in {OperandMustBeNumber, OperandsMustBeNumbers, DivisionByZero, OperandsMustBeAddable}
  {
    match e
    case Grouping(inner) =>
      ErrorsComeFromOperators(inner, host);
    case Unary(operator, right) =>
      if Evaluate(right, host).Failure? {
        ErrorsComeFromOperators(right, host);
      }
    case Binary(left, operator, right) =>
      if Evaluate(left, host).Failure? {
        ErrorsComeFromOperators(left, host);
      } else if Evaluate(right, host).Failure? {
        ErrorsComeFromOperators(right, host);
      }
    case Ternary(condition, ifTrue, ifFalse) =>
      if Evaluate(condition, host).Failure? {
        ErrorsComeFromOperators(condition, host);
      } else if IsTruthy(Evaluate(condition, host).value) {
        ErrorsComeFromOperators(ifTrue, host);
      } else {
        ErrorsComeFromOperators(ifFalse, host);
      }
  }

  /** Expressions built from literals, groupings, `!`, `==`, `!=` and ternaries. */
  predicate ComparesOnly(e: Expr) {
    match e
    case Literal(_) => true
    case Grouping(inner) => ComparesOnly(inner)
    case Unary(operator, right) => operator.kind == Bang && ComparesOnly(right)
    case Binary(left, operator, right) => operator.kind in {EqualEqual, BangEqual} && ComparesOnly(left) && ComparesOnly(right)
    case Ternary(condition, ifTrue, ifFalse) => ComparesOnly(condition) && ComparesOnly(ifTrue) && ComparesOnly(ifFalse)
    case _ => false
  }

  /** Without arithmetic, comparison or `+` nothing can raise: such an expression always has a value. */
  lemma {:induction false} ComparisonsNeverRaise(e: Expr, host: Host)
    requires Evaluable(e) && ComparesOnly(e)
    ensures Evaluate(e, host).Success?
  {
    match e
    case Literal(_) =>
    case Grouping(inner) =>
      ComparisonsNeverRaise(inner, host);
    case Unary(operator, right) =>
      ComparisonsNeverRaise(right, host);
    case Binary(left, operator, right) =>
      ComparisonsNeverRaise(left, host);
      ComparisonsNeverRaise(right, host);
    case Ternary(condition, ifTrue, ifFalse) =>
      ComparisonsNeverRaise(condition, host);
      ComparisonsNeverRaise(ifTrue, host);
      ComparisonsNeverRaise(ifFalse, host);
  }
}
