/**
 * The scanner (Scanner.kt): a cursor over the source text that appends one token per
 * recognised lexeme and ends the list with an end-of-input token.
 *
 * `StepAt` and `ScanFrom` state what one `scanToken` call and the whole scan produce;
 * the `Scanner` class does it step by step and is proved to agree with them.
 */
module Lexer {
  import opened Results
  import opened Syntax
  import opened Diagnostics
  import opened SeqFacts

  const UnexpectedCharacter := "Unexpected character."

  /** What one `scanToken` call does from cursor `cur` on line `line`. */
  datatype Step = Step(next: nat, line: int, token: Option<Token>, unexpected: bool)

  /** The result of scanning from a cursor to the end: tokens, lines of reported characters, final line. */
  datatype Scanned = Scanned(tokens: seq<Token>, errorLines: seq<int>, line: int)

  function CountNewlines(s: string): nat {
    if s == [] then 0 else CountNewlines(s[..|s| - 1]) + (if s[|s| - 1] == '\n' then 1 else 0)
  }

  lemma {:induction false} CountNewlinesAppend(a: string, b: string)
    ensures CountNewlines(a + b) == CountNewlines(a) + CountNewlines(b)
    decreases |b|
  {
    if b == [] {
      assert a + b == a;
    } else {
      var c := a + b;
      assert c[..|c| - 1] == a + b[..|b| - 1];
      assert c[|c| - 1] == b[|b| - 1];
      CountNewlinesAppend(a, b[..|b| - 1]);
    }
  }

  lemma {:induction false} NoNewlines(s: string)
    requires forall k :: 0 <= k < |s| ==> s[k] != '\n'
    ensures CountNewlines(s) == 0
    decreases |s|
  {
    if s != [] {
      NoNewlines(s[..|s| - 1]);
    }
  }

  /**
   * Where a `//` comment whose text starts at `i` ends: at the next line break, which it
   * does not consume, or at the end of the source.
   */
  function CommentEnd(src: string, i: nat): (j: nat)
    requires i <= |src|
    ensures i <= j <= |src|
    ensures j == |src| || src[j] == '\n'
    ensures forall k :: i <= k < j ==> src[k] != '\n'
    decreases |src| - i
  {
    if i == |src| || src[i] == '\n' then i else CommentEnd(src, i + 1)
  }

  /** The token `addToken(kind)` appends for the lexeme `src[start..end]`. */
  function Emit(src: string, start: nat, end: nat, kind: TokenType, line: int): Step
    requires start < end <= |src|
  {
    Step(end, line, Some(Token(kind, src[start..end], NilValue, line)), false)
  }

  /** An operator that becomes a two-character token when `=` follows it. */
  function WithEqual(src: string, cur: nat, single: TokenType, double: TokenType, line: int): Step
    requires cur < |src|
  {
    if cur + 1 < |src| && src[cur + 1] == '=' then Emit(src, cur, cur + 2, double, line)
    else Emit(src, cur, cur + 1, single, line)
  }

  /** How `scanToken` treats a character: the arms of its `when`. */
  datatype CharClass =
    | Single(kind: TokenType)
    | Operator(single: TokenType, double: TokenType)
    | SlashChar
    | Blank
    | LineBreak
    | Other

  function Classify(c: char): CharClass {
    match c
    case '(' => Single(LeftParen)
    case ')' => Single(RightParen)
    case '{' => Single(LeftBrace)
    case '}' => Single(RightBrace)
    case ',' => Single(Comma)
    case '.' => Single(Dot)
    case '-' => Single(Minus)
    case '+' => Single(Plus)
    case ';' => Single(Semicolon)
    case '*' => Single(Star)
    case '!' => Operator(Bang, BangEqual)
    case '=' => Operator(Equal, EqualEqual)
    case '<' => Operator(Less, LessEqual)
    case '>' => Operator(Greater, GreaterEqual)
    case '/' => SlashChar
    case ' ' => Blank
    case '\r' => Blank
    case '\t' => Blank
    case '\n' => LineBreak
    case _ => Other
  }

  /** One `scanToken` call: `src[cur]` is the character `advance` reads. */
  function StepAt(src: string, cur: nat, line: int): (s: Step)
    requires cur < |src|
    ensures cur < s.next <= |src|
    ensures s.line == line + CountNewlines(src[cur..s.next])
    ensures s.token.Some? ==> s.token.value == Token(s.token.value.kind, src[cur..s.next], NilValue, line)
    ensures s.token.Some? ==> s.token.value.kind != Eof
    ensures s.unexpected ==> s.token.None? && s.next == cur + 1
  {
    var s :=
      match Classify(src[cur])
      case Single(kind) => Emit(src, cur, cur + 1, kind, line)
      case Operator(single, double) => WithEqual(src, cur, single, double, line)
      case SlashChar =>
        if cur + 1 < |src| && src[cur + 1] == '/' then Step(CommentEnd(src, cur + 2), line, None, false)
        else Emit(src, cur, cur + 1, Slash, line)
      case Blank => Step(cur + 1, line, None, false)
      case LineBreak => Step(cur + 1, line + 1, None, false)
      case Other => Step(cur + 1, line, None, true);
    StepNewlines(src, cur, s.next);
    s
  }

  /** Exactly `!`, `=`, `<` and `>` look ahead for `=`. */
  lemma OperatorCharacters(c: char)
    ensures Classify(c).Operator? <==> c in "!=<>"
  {
  }

  /** An operator followed by `=` becomes one two-character token. */
  lemma TwoCharacterOperator(src: string, cur: nat, line: int)
    requires cur + 1 < |src| && src[cur] in "!=<>" && src[cur + 1] == '='
    ensures var s := StepAt(src, cur, line);
      && s.next == cur + 2 && s.line == line && !s.unexpected
      && s.token == Some(Token(Classify(src[cur]).double, src[cur..cur + 2], NilValue, line))
      && s.token.value.kind in {BangEqual, EqualEqual, LessEqual, GreaterEqual}
  {
  }

  /** Otherwise the operator is a one-character token and the next character is left alone. */
  lemma OneCharacterOperator(src: string, cur: nat, line: int)
    requires cur < |src| && src[cur] in "!=<>"
    requires cur + 1 == |src| || src[cur + 1] != '='
    ensures var s := StepAt(src, cur, line);
      && s.next == cur + 1 && s.line == line && !s.unexpected
      && s.token == Some(Token(Classify(src[cur]).single, [src[cur]], NilValue, line))
      && s.token.value.kind in {Bang, Equal, Less, Greater}
  {
    assert src[cur..cur + 1] == [src[cur]];
  }

  /** `//` skips to the next line break, which it leaves for the next step, and emits nothing. */
  lemma LineComment(src: string, cur: nat, line: int)
    requires cur + 1 < |src| && src[cur] == '/' && src[cur + 1] == '/'
    ensures var s := StepAt(src, cur, line);
      && s.token.None? && !s.unexpected && s.line == line
      && (s.next == |src| || src[s.next] == '\n')
      && forall k :: cur <= k < s.next ==> src[k] != '\n'
  {
  }

  /** A `/` that does not start a comment is a division token. */
  lemma LoneSlash(src: string, cur: nat, line: int)
    requires cur < |src| && src[cur] == '/' && (cur + 1 == |src| || src[cur + 1] != '/')
    ensures StepAt(src, cur, line) == Step(cur + 1, line, Some(Token(Slash, "/", NilValue, line)), false)
  {
    assert src[cur..cur + 1] == [src[cur]] == "/";
  }

  /** Blanks emit nothing and keep the line; a line break emits nothing and counts one line. */
  lemma Whitespace(src: string, cur: nat, line: int)
    requires cur < |src| && src[cur] in " \r\t\n"
    ensures StepAt(src, cur, line)
         == Step(cur + 1, if src[cur] == '\n' then line + 1 else line, None, false)
  {
  }

  /** The characters `scanToken` has an arm for. */
  const Recognised := "(){},.-+;*!=<>/ \r\t\n"

  /**
   * Any character without an arm is reported on its line and skipped, and scanning goes
   * on with the next character; a step reports only such a character.
   */
  lemma UnexpectedCharacters(src: string, cur: nat, line: int)
    requires cur < |src|
    ensures StepAt(src, cur, line).unexpected <==> src[cur] !in Recognised
    ensures src[cur] !in Recognised ==> StepAt(src, cur, line) == Step(cur + 1, line, None, true)
  {
    assert Classify(src[cur]).Other? <==> src[cur] !in Recognised;
  }

  /** Digits, letters, quotes, `?` and `:` among them: Scanner.kt has no arm for literals or names. */
  lemma UnexpectedLiteralCharacters(src: string, cur: nat, line: int)
    requires cur < |src|
    requires var c := src[cur]; '0' <= c <= '9' || 'a' <= c <= 'z' || 'A' <= c <= 'Z' || c in "_\"?:"
    ensures StepAt(src, cur, line) == Step(cur + 1, line, None, true)
  {
    UnexpectedCharacters(src, cur, line);
  }

  /** Only a line break itself changes the line: operators and comment text hold none. */
  lemma StepNewlines(src: string, cur: nat, next: nat)
    requires cur < next <= |src|
    requires next > cur + 1 ==> (forall k :: cur + 1 <= k < next ==> src[k] != '\n')
    ensures CountNewlines(src[cur..next]) == CountNewlines(src[cur..cur + 1])
  {
    assert src[cur..next] == src[cur..cur + 1] + src[cur + 1..next];
    CountNewlinesAppend(src[cur..cur + 1], src[cur + 1..next]);
    NoNewlines(src[cur + 1..next]);
  }

  function TokenOf(s: Step): seq<Token> {
    if s.token.Some? then [s.token.value] else []
  }

  /** Everything the scan loop produces from cursor `cur` on line `line` to the end of `src`. */
  function ScanFrom(src: string, cur: nat, line: int): (r: Scanned)
    requires cur <= |src|
    decreases |src| - cur
  {
    if cur == |src| then Scanned([], [], line)
    else
      var s := StepAt(src, cur, line);
      var rest := ScanFrom(src, s.next, s.line);
      Scanned(TokenOf(s) + rest.tokens, ErrorOf(s, line) + rest.errorLines, rest.line)
  }

  /** The final line of a scan counts every line break of the text scanned. */
  lemma {:induction false} ScanFromLine(src: string, cur: nat, line: int)
    requires cur <= |src|
    ensures ScanFrom(src, cur, line).line == line + CountNewlines(src[cur..])
    decreases |src| - cur
  {
    if cur < |src| {
      var s := StepAt(src, cur, line);
      ScanFromLine(src, s.next, s.line);
      assert src[cur..] == src[cur..s.next] + src[s.next..];
      CountNewlinesAppend(src[cur..s.next], src[s.next..]);
    }
  }

  /** The scan emits at most one token per character, never an end-of-input token, and only null literals. */
  lemma {:induction false} ScanFromTokens(src: string, cur: nat, line: int)
    requires cur <= |src|
    ensures var r := ScanFrom(src, cur, line);
      && |r.tokens| <= |src| - cur
      && forall i :: 0 <= i < |r.tokens| ==> r.tokens[i].kind != Eof && r.tokens[i].literal == NilValue
    decreases |src| - cur
  {
    if cur < |src| {
      var s := StepAt(src, cur, line);
      ScanFromTokens(src, s.next, s.line);
      var rest := ScanFrom(src, s.next, s.line).tokens;
      var tokens := ScanFrom(src, cur, line).tokens;
      assert tokens == TokenOf(s) + rest;
      assert forall i :: 0 <= i < |rest| ==> tokens[|TokenOf(s)| + i] == rest[i];
    }
  }

  /** Every token's line lies between `lo` and `hi`. */
  predicate LinesWithin(tokens: seq<Token>, lo: int, hi: int) {
    forall i :: 0 <= i < |tokens| ==> lo <= tokens[i].line <= hi
  }

  /** Every token's line lies between the starting line and the final one. */
  lemma {:induction false} ScanTokenLines(src: string, cur: nat, line: int)
    requires cur <= |src|
    ensures LinesWithin(ScanFrom(src, cur, line).tokens, line, ScanFrom(src, cur, line).line)
    decreases |src| - cur
  {
    if cur < |src| {
      var s := StepAt(src, cur, line);
      ScanTokenLines(src, s.next, s.line);
      ScanFromLine(src, s.next, s.line);
      var rest := ScanFrom(src, s.next, s.line).tokens;
      var tokens := ScanFrom(src, cur, line).tokens;
      assert tokens == TokenOf(s) + rest;
      assert forall i :: 0 <= i < |rest| ==> tokens[|TokenOf(s)| + i] == rest[i];
    }
  }

  /** Token lines never decrease. */
  predicate LinesInOrder(tokens: seq<Token>) {
    forall i, j :: 0 <= i < j < |tokens| ==> tokens[i].line <= tokens[j].line
  }

  /** Token lines never decrease. */
  lemma {:induction false} ScanTokenOrder(src: string, cur: nat, line: int)
    requires cur <= |src|
    ensures LinesInOrder(ScanFrom(src, cur, line).tokens)
    decreases |src| - cur
  {
    if cur < |src| {
      var s := StepAt(src, cur, line);
      ScanTokenOrder(src, s.next, s.line);
      ScanTokenLines(src, s.next, s.line);
      var rest := ScanFrom(src, s.next, s.line);
      assert s.token.Some? ==> TokenOf(s) == [s.token.value] && s.token.value.line == line;
      InOrderPrepend(TokenOf(s), rest.tokens, line, s.line, rest.line);
    }
  }

  /** At most one token on `line`, followed by tokens in order on `line` or later, is in order. */
  lemma InOrderPrepend(head: seq<Token>, rest: seq<Token>, line: int, lo: int, hi: int)
    requires |head| <= 1 && (forall t :: t in head ==> t.line == line)
    requires line <= lo && LinesWithin(rest, lo, hi) && LinesInOrder(rest)
    ensures LinesInOrder(head + rest)
  {
    var tokens := head + rest;
    forall i, j | 0 <= i < j < |tokens|
      ensures tokens[i].line <= tokens[j].line
    {
      assert tokens[j] == rest[j - |head|];
      if i >= |head| {
        assert tokens[i] == rest[i - |head|];
      } else {
        assert tokens[i] in head;
      }
    }
  }

  /** Every reported line lies between the starting line and the final one. */
  lemma {:induction false} ScanErrorLines(src: string, cur: nat, line: int)
    requires cur <= |src|
    ensures var r := ScanFrom(src, cur, line);
      forall i :: 0 <= i < |r.errorLines| ==> line <= r.errorLines[i] <= r.line
    decreases |src| - cur
  {
    if cur < |src| {
      var s := StepAt(src, cur, line);
      ScanErrorLines(src, s.next, s.line);
      ScanFromLine(src, s.next, s.line);
      var rest := ScanFrom(src, s.next, s.line).errorLines;
      var lines := ScanFrom(src, cur, line).errorLines;
      assert lines == ErrorOf(s, line) + rest;
      assert forall i :: 0 <= i < |rest| ==> lines[|ErrorOf(s, line)| + i] == rest[i];
    }
  }

  /** The line reported by a step, if it met an unexpected character. */
  function ErrorOf(s: Step, line: int): seq<int> {
    if s.unexpected then [line] else []
  }

  /** One turn of the scan loop: what is left to scan shrinks by one step. */
  lemma ScanTurn(src: string, cur: nat, line: int, all: Scanned, produced: seq<Token>, reported: seq<int>)
    requires cur < |src|
    requires var r := ScanFrom(src, cur, line);
      all.tokens == produced + r.tokens && all.errorLines == reported + r.errorLines && all.line == r.line
    ensures var s := StepAt(src, cur, line);
      var r := ScanFrom(src, s.next, s.line);
      && all.tokens == (produced + TokenOf(s)) + r.tokens
      && all.errorLines == (reported + ErrorOf(s, line)) + r.errorLines
      && all.line == r.line
  {
    var s := StepAt(src, cur, line);
    var r := ScanFrom(src, s.next, s.line);
    assert ScanFrom(src, cur, line) == Scanned(TokenOf(s) + r.tokens, ErrorOf(s, line) + r.errorLines, r.line);
    AppendAssociative(produced, TokenOf(s), r.tokens);
    AppendAssociative(reported, ErrorOf(s, line), r.errorLines);
  }

  /** The token `scanTokens` appends at the end. */
  function EofToken(line: int): Token {
    Token(Eof, "", NilValue, line)
  }

  /** What `scanTokens` returns on a fresh scanner over `src`. */
  function Tokenize(src: string): (ts: seq<Token>)
    ensures |ts| >= 1 && ts[|ts| - 1] == EofToken(1 + CountNewlines(src))
    ensures forall i :: 0 <= i < |ts| - 1 ==> ts[i].kind != Eof && ts[i].literal == NilValue
    ensures |ts| <= |src| + 1
    ensures forall i, j :: 0 <= i < j < |ts| ==> 1 <= ts[i].line <= ts[j].line
  {
    var r := ScanFrom(src, 0, 1);
    ScanFromLine(src, 0, 1);
    ScanFromTokens(src, 0, 1);
    ScanTokenLines(src, 0, 1);
    ScanTokenOrder(src, 0, 1);
    assert src[0..] == src;
    r.tokens + [EofToken(r.line)]
  }

  /** The reports `Lox.error(line, "Unexpected character.")` writes for the given lines. */
  function UnexpectedReports(lines: seq<int>): (reports: seq<Report>)
    ensures |reports| == |lines|
  {
    if lines == [] then []
    else UnexpectedReports(lines[..|lines| - 1]) + [LineReport(lines[|lines| - 1], UnexpectedCharacter)]
  }

  lemma UnexpectedReportsAppend(lines: seq<int>, more: seq<int>)
    requires |more| <= 1
    ensures UnexpectedReports(lines + more) == UnexpectedReports(lines) + UnexpectedReports(more)
  {
    if |more| == 1 {
      assert (lines + more)[..|lines + more| - 1] == lines;
    } else {
      assert lines + more == lines;
    }
  }

  /** When the loop stops at the end of the source, what it produced and reported is everything. */
  lemma ScanFinished(src: string, cur: nat, line: int, all: Scanned, produced: seq<Token>, reported: seq<int>)
    requires cur == |src|
    requires var r := ScanFrom(src, cur, line);
      all.tokens == produced + r.tokens && all.errorLines == reported + r.errorLines && all.line == r.line
    ensures all == Scanned(produced, reported, line)
  {
    assert ScanFrom(src, cur, line) == Scanned([], [], line);
    assert produced + [] == produced && reported + [] == reported;
  }

  /** The error channel after one more turn of the scan loop, as `UnexpectedReports` describes it. */
  lemma {:induction false} UnexpectedStep(before: Channel, mid: Channel, after: Channel, reported: seq<int>, newly: seq<int>)
    requires |newly| <= 1
    requires mid == Channel(before.stderr + UnexpectedReports(reported), before.hadError || reported != [], before.hadRuntimeError)
    requires after == Channel(mid.stderr + UnexpectedReports(newly), mid.hadError || newly != [], mid.hadRuntimeError)
    ensures after == Channel(before.stderr + UnexpectedReports(reported + newly), before.hadError || reported + newly != [],
                             before.hadRuntimeError)
  {
    UnexpectedReportsAppend(reported, newly);
    assert before.stderr + UnexpectedReports(reported) + UnexpectedReports(newly)
        == before.stderr + UnexpectedReports(reported + newly);
  }

  // ---------------------------------------------------------------- the scanner

  class Scanner {
    const source: string
    var tokens: seq<Token>
    var start: nat
    var current: nat
    var line: int

    ghost predicate Valid()
      reads this
    {
      start <= current <= |source|
    }

    constructor (source: string)
      ensures Valid() && this.source == source
      ensures tokens == [] && start == 0 && current == 0 && line == 1
    {
      this.source := source;
      tokens, start, current, line := [], 0, 0, 1;
    }

    predicate IsAtEnd()
      reads this
    {
      current >= |source|
    }

    /** The character under the cursor, or `'\0'` at the end. */
    function Peek(): (c: char)
      reads this
      ensures !IsAtEnd() ==> c == source[current]
    {
      if IsAtEnd() then '\0' else source[current]
    }

    method Advance() returns (c: char)
      requires Valid() && current < |source|
      modifies this`current
      ensures Valid() && current == old(current) + 1 && c == source[old(current)]
    {
      c := source[current];
      current := current + 1;
    }

    /** Consumes the next character only when it is `expected`. */
    method Match(expected: char) returns (matched: bool)
      requires Valid()
      modifies this`current
      ensures Valid()
      ensures matched <==> old(current) < |source| && source[old(current)] == expected
      ensures current == if matched then old(current) + 1 else old(current)
    {
      if IsAtEnd() {
        return false;
      }
      if source[current] != expected {
        return false;
      }
      current := current + 1;
      return true;
    }

    method AddToken(kind: TokenType)
      requires Valid()
      modifies this`tokens
      ensures tokens == old(tokens) + [Token(kind, source[start..current], NilValue, line)]
    {
      AddTokenWithLiteral(kind, NilValue);
    }

    method AddTokenWithLiteral(kind: TokenType, literal: LiteralValue)
      requires Valid()
      modifies this`tokens
      ensures tokens == old(tokens) + [Token(kind, source[start..current], literal, line)]
    {
      var text := source[start..current];
      tokens := tokens + [Token(kind, text, literal, line)];
    }

    /** Adds `double` when `=` follows, consuming it, and `single` otherwise. */
    method AddOperator(single: TokenType, double: TokenType)
      requires Valid() && start + 1 == current
      modifies this`current, this`tokens
      ensures Valid() && start == old(start)
      ensures var s := WithEqual(source, start, single, double, line);
        current == s.next && tokens == old(tokens) + TokenOf(s)
    {
      var isDouble := Match('=');
      AddToken(if isDouble then double else single);
    }

    /** A comment goes until the end of the line: the cursor moves to the next line break or the end. */
    method SkipComment()
      requires Valid()
      modifies this`current
      ensures Valid() && current == CommentEnd(source, old(current))
    {
      while Peek() != '\n' && !IsAtEnd()
        invariant Valid() && old(current) <= current
        invariant CommentEnd(source, current) == CommentEnd(source, old(current))
        decreases |source| - current
      {
        var skipped := Advance();
      }
    }

    method ScanToken(lox: Lox)
      requires Valid() && start == current < |source|
      modifies this, lox
      ensures Valid() && start == old(start)
      ensures var s := StepAt(source, old(current), old(line));
        && current == s.next && line == s.line
        && tokens == old(tokens) + TokenOf(s)
        && lox.State() == Channel(old(lox.stderr) + UnexpectedReports(ErrorOf(s, old(line))),
                                  old(lox.hadError) || s.unexpected, old(lox.hadRuntimeError))
    {
      var c := Advance();
      match Classify(c)
      case Single(kind) => AddToken(kind);
      case Operator(single, double) => AddOperator(single, double);
      case SlashChar =>
        var comment := Match('/');
        if comment {
          SkipComment();
        } else {
          AddToken(Slash);
        }
      case Blank =>
      case LineBreak => line := line + 1;
      case Other =>
        assert UnexpectedReports([line]) == [LineReport(line, UnexpectedCharacter)];
        lox.ErrorAtLine(line, UnexpectedCharacter);
    }

    method ScanTokens(lox: Lox) returns (result: seq<Token>)
      requires Valid()
      modifies this, lox
      ensures var r := ScanFrom(source, old(current), old(line));
        && result == tokens == old(tokens) + r.tokens + [EofToken(r.line)]
        && lox.State() == Channel(old(lox.stderr) + UnexpectedReports(r.errorLines),
                                  old(lox.hadError) || r.errorLines != [], old(lox.hadRuntimeError))
    {
      ghost var all := ScanFrom(source, current, line);
      ghost var c0 := lox.State();
      ghost var produced: seq<Token> := [];
      ghost var reported: seq<int> := [];
      while !IsAtEnd()
        invariant Valid()
        invariant tokens == old(tokens) + produced
        invariant var r := ScanFrom(source, current, line);
          && all.tokens == produced + r.tokens
          && all.errorLines == reported + r.errorLines
          && all.line == r.line
        invariant lox.State() == Channel(c0.stderr + UnexpectedReports(reported), c0.hadError || reported != [], c0.hadRuntimeError)
        decreases |source| - current
      {
        start := current;
        ghost var s := StepAt(source, current, line);
        ScanTurn(source, current, line, all, produced, reported);
        ghost var newlyReported := ErrorOf(s, line);
        ghost var mid := lox.State();
        ScanToken(lox);
        UnexpectedStep(c0, mid, lox.State(), reported, newlyReported);
        AppendAssociative(old(tokens), produced, TokenOf(s));
        produced := produced + TokenOf(s);
        reported := reported + newlyReported;
      }
      ScanFinished(source, current, line, all, produced, reported);
      tokens := tokens + [EofToken(line)];
      result := tokens;
    }
  }
}
