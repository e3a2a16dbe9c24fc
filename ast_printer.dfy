/**
 * The Lisp-style printer of expressions (AstPrinter.kt). Each operator node prints as
 * its name and its children, separated by single spaces, inside one pair of
 * parentheses; a literal prints as its text. A literal's text is the host's
 * `toString` of the value.
 */
module Printing {
  import opened Results
  import opened Numbers
  import opened Syntax
  import opened SeqFacts

  /** The expressions AstPrinter.kt has a visitor method for. */
  predicate Printable(e: Expr) {
    match e
    case Binary(left, _, right) => Printable(left) && Printable(right)
    case Grouping(inner) => Printable(inner)
    case Literal(_) => true
    case Unary(_, right) => Printable(right)
    case _ => false
  }

  /** `visitLiteralExpr`: "nil" for null, the value's `toString` otherwise. */
  function LiteralText(v: LiteralValue, host: Host): string {
    match v
    case NilValue => "nil"
    case BoolValue(b) => if b then "true" else "false"
    case NumberValue(n) => host.text(n)
    case StringValue(s) => s
  }

  /** `joinToString(" ")`. */
  function Join(parts: seq<string>): string {
    if parts == [] then ""
    else if |parts| == 1 then parts[0]
    else parts[0] + " " + Join(parts[1..])
  }

  /** `parenthesize`: the name and the parts inside one pair of parentheses. */
  function Parenthesize(name: string, parts: seq<string>): (s: string)
    ensures |s| >= 3 && s[0] == '(' && s[|s| - 1] == ')'
    ensures s[1..|s| - 1] == name + " " + Join(parts)
  {
    var s := "(" + name + " " + Join(parts) + ")";
    assert s == "(" + (name + " " + Join(parts)) + ")";
    s
  }

  /** `print`: the visitor applied to the whole expression; every node but a literal prints inside one pair of parentheses. */
  function Print(e: Expr, host: Host): (s: string)
    requires Printable(e)
    ensures !e.Literal? ==> |s| >= 3 && s[0] == '(' && s[|s| - 1] == ')'
  {
    match e
    case Binary(left, operator, right) => Parenthesize(operator.lexeme, [Print(left, host), Print(right, host)])
    case Grouping(inner) => Parenthesize("group", [Print(inner, host)])
    case Literal(v) => LiteralText(v, host)
    case Unary(operator, right) => Parenthesize(operator.lexeme, [Print(right, host)])
  }

  /**
   * The layout of each node: a binary node prints as its operator's lexeme and both
   * operands, left first; a grouping as "group" and its inner expression; a unary node
   * as its operator's lexeme and its operand.
   */
  lemma PrintLayout(e: Expr, host: Host)
    requires Printable(e) && !e.Literal?
    ensures e.Binary? ==> Print(e, host) == "(" + e.operator.lexeme + " " + Print(e.left, host) + " " + Print(e.right, host) + ")"
    ensures e.Grouping? ==> Print(e, host) == "(group " + Print(e.expression, host) + ")"
    ensures e.Unary? ==> Print(e, host) == "(" + e.operator.lexeme + " " + Print(e.right, host) + ")"
  {
    match e
    case Binary(left, operator, right) =>
      var l, r := Print(left, host), Print(right, host);
      var head := "(" + operator.lexeme + " ";
      assert [l, r][1..] == [r];
      assert Join([l, r]) == l + " " + r;
      assert Print(e, host) == head + (l + " " + r) + ")";
      AppendAssociative(head, l + " ", r);
      AppendAssociative(head, l, " ");
    case Grouping(inner) =>
      assert Join([Print(inner, host)]) == Print(inner, host);
      assert "(" + "group" + " " == "(group ";
    case Unary(operator, right) =>
      assert Join([Print(right, host)]) == Print(right, host);
  }

  /**
   * Reads a string's parentheses from an open depth: the depth at the end, or `None`
   * when a `)` closes more than was opened.
   */
  function Balance(s: string, depth: nat): Option<nat>
    decreases |s|
  {
    if s == [] then Some(depth)
    else if s[0] == '(' then Balance(s[1..], depth + 1)
    else if s[0] == ')' then (if depth == 0 then None else Balance(s[1..], depth - 1))
    else Balance(s[1..], depth)
  }

  predicate ParenFree(s: string) {
    forall i :: 0 <= i < |s| ==> s[i] != '(' && s[i] != ')'
  }

  lemma {:induction false} BalanceAppend(a: string, b: string, depth: nat)
    ensures Balance(a + b, depth) == match Balance(a, depth) case None => None case Some(d) => Balance(b, d)
    decreases |a|
  {
    if a == [] {
      assert a + b == b;
    } else {
      assert (a + b)[1..] == a[1..] + b;
      if a[0] == '(' {
        BalanceAppend(a[1..], b, depth + 1);
      } else if a[0] == ')' {
        if depth > 0 {
          BalanceAppend(a[1..], b, depth - 1);
        }
      } else {
        BalanceAppend(a[1..], b, depth);
      }
    }
  }

  lemma {:induction false} ParenFreeBalance(s: string, depth: nat)
    requires ParenFree(s)
    ensures Balance(s, depth) == Some(depth)
    decreases |s|
  {
    if s != [] {
      ParenFreeBalance(s[1..], depth);
    }
  }

  /** No operator lexeme and no literal text in the expression contains a parenthesis. */
  predicate PlainText(e: Expr, host: Host) {
    match e
    case Binary(left, operator, right) => ParenFree(operator.lexeme) && PlainText(left, host) && PlainText(right, host)
    case Grouping(inner) => PlainText(inner, host)
    case Literal(v) => ParenFree(LiteralText(v, host))
    case Unary(operator, right) => ParenFree(operator.lexeme) && PlainText(right, host)
    case _ => true
  }

  /**
   * When no lexeme or literal text brings its own parentheses, the printed form is
   * balanced: read from any depth it never closes more than it opened and ends at
   * the depth it started from.
   */
  lemma {:induction false} PrintBalanced(e: Expr, host: Host, depth: nat)
    requires Printable(e) && PlainText(e, host)
    ensures Balance(Print(e, host), depth) == Some(depth)
  {
    match e
    case Literal(v) =>
      ParenFreeBalance(LiteralText(v, host), depth);
    case Grouping(inner) =>
      PrintBalanced(inner, host, depth + 1);
      ParenthesizeBalanced("group", [Print(inner, host)], depth);
    case Unary(operator, right) =>
      PrintBalanced(right, host, depth + 1);
      ParenthesizeBalanced(operator.lexeme, [Print(right, host)], depth);
    case Binary(left, operator, right) =>
      PrintBalanced(left, host, depth + 1);
      PrintBalanced(right, host, depth + 1);
      ParenthesizeBalanced(operator.lexeme, [Print(left, host), Print(right, host)], depth);
  }

  /** A parenthesized node is balanced from `depth` when its name has no parentheses and its one or two parts are balanced one level deeper. */
  lemma ParenthesizeBalanced(name: string, parts: seq<string>, depth: nat)
    requires ParenFree(name) && 1 <= |parts| <= 2
    requires forall i :: 0 <= i < |parts| ==> Balance(parts[i], depth + 1) == Some(depth + 1)
    ensures Balance(Parenthesize(name, parts), depth) == Some(depth)
  {
    ParenFreeBalance(" ", depth + 1);
    BalanceAppend(name, " ", depth + 1);
    assert ParenFree(name + " ");
    if |parts| == 2 {
      BalanceAppend(parts[0], " " + parts[1], depth + 1);
      BalanceAppend(" ", parts[1], depth + 1);
      assert Join(parts) == parts[0] + (" " + parts[1]);
    }
    assert Parenthesize(name, parts) == "(" + (name + " ") + Join(parts) + ")";
    OpenCloseBalance(name + " ", Join(parts), depth);
  }

  /** `"(" + head + body + ")"` is balanced from `depth` when `head` has no parentheses and `body` is balanced one level deeper. */
  lemma OpenCloseBalance(head: string, body: string, depth: nat)
    requires ParenFree(head) && Balance(body, depth + 1) == Some(depth + 1)
    ensures Balance("(" + head + body + ")", depth) == Some(depth)
  {
    ParenFreeBalance(head, depth + 1);
    BalanceAppend("(" + head, body + ")", depth);
    BalanceAppend("(", head, depth);
    BalanceAppend(body, ")", depth + 1);
    assert "(" + head + body + ")" == ("(" + head) + (body + ")");
  }
}
