/**
 * The diagnostic channel of `object Lox` (Lox.kt): the two error flags, the error stream
 * (modelled as the list of lines written to it) and the exact text of each report.
 */
module Diagnostics {
  import opened Syntax
  import opened SeqFacts

  /** A fault raised while evaluating, carrying the token that caused it. */
  datatype RuntimeError = RuntimeError(token: Token, message: string)

  /** What the parser hands to `Lox.error(token, message)`. */
  datatype SyntaxError = SyntaxError(token: Token, message: string)

  // ---------------------------------------------------------------- decimal text

  function DigitChar(d: nat): (c: char)
    requires d < 10
    ensures '0' <= c <= '9'
  {
    "0123456789"[d]
  }

  function DigitValue(c: char): nat
    requires '0' <= c <= '9'
  {
    c as nat - '0' as nat
  }

  /** Kotlin's decimal text of a non-negative integer: no leading zeros. */
  function NatText(n: nat): (s: string)
    ensures 0 < |s|
    ensures forall i :: 0 <= i < |s| ==> '0' <= s[i] <= '9'
    ensures |s| > 1 ==> s[0] != '0'
    decreases n
  {
    if n < 10 then [DigitChar(n)] else NatText(n / 10) + [DigitChar(n % 10)]
  }

  /** Kotlin's decimal text of an `Int`, as string templates print it. */
  function IntText(i: int): (s: string)
    ensures 0 < |s|
  {
    if i < 0 then "-" + NatText(-i) else NatText(i)
  }

  /** Reads back a string of decimal digits. */
  function DigitsValue(s: string): nat
    requires forall i :: 0 <= i < |s| ==> '0' <= s[i] <= '9'
  {
    if s == [] then 0 else DigitsValue(s[..|s| - 1]) * 10 + DigitValue(s[|s| - 1])
  }

  /** Reads back the text of an integer. */
  function ReadInt(s: string): int
    requires 0 < |s|
    requires forall i :: 0 < i < |s| ==> '0' <= s[i] <= '9'
    requires s[0] == '-' || '0' <= s[0] <= '9'
  {
    if s[0] == '-' then 0 - DigitsValue(s[1..]) as int else DigitsValue(s)
  }

  lemma {:induction false} NatTextRoundTrip(n: nat)
    ensures DigitsValue(NatText(n)) == n
    decreases n
  {
    if n >= 10 {
      NatTextRoundTrip(n / 10);
      var s := NatText(n);
      assert s[..|s| - 1] == NatText(n / 10);
    }
  }

  lemma ReadNegative(digits: string)
    requires 0 < |digits| && forall i :: 0 <= i < |digits| ==> '0' <= digits[i] <= '9'
    ensures ReadInt("-" + digits) == 0 - DigitsValue(digits) as int
  {
    assert ("-" + digits)[1..] == digits;
  }

  /** Line numbers printed in reports read back as the line they came from. */
  lemma {:induction false} IntTextRoundTrip(i: int)
    ensures ReadInt(IntText(i)) == i
  {
    if i < 0 {
      NatTextRoundTrip(-i);
      ReadNegative(NatText(-i));
    } else {
      NatTextRoundTrip(i);
    }
  }

  // ---------------------------------------------------------------- report texts

  /** The `where` part of a report about a token. */
  function TokenWhere(token: Token): string {
    if token.kind == Eof then "at end" else "at '" + token.lexeme + "'"
  }

  /** The line `report(line, where, message)` prints. */
  function ReportText(line: int, where: string, message: string): (s: string)
    ensures |s| >= 6 + |message|
    ensures s[..6] == "[line "
    ensures s[|s| - |message|..] == message
  {
    "[line " + IntText(line) + "] Error " + where + ": " + message
  }

  /**
   * One line written to the error stream, by the function that wrote it: `error(line, message)`,
   * `error(token, message)` or `runtimeError(error)`.
   */
  datatype Report =
    | LineReport(line: int, message: string)
    | TokenReport(syntax: SyntaxError)
    | RuntimeReport(runtime: RuntimeError)

  /** The exact text of the line a report writes. */
  function ReportLine(r: Report): string {
    match r
    case LineReport(line, message) => ReportText(line, "", message)
    case TokenReport(e) => ReportText(e.token.line, TokenWhere(e.token), e.message)
    case RuntimeReport(e) => e.message + "\n[line: " + IntText(e.token.line) + "]"
  }

  /** The reports `error(token, message)` writes for `errors`, one per error, in order. */
  function SyntaxReports(errors: seq<SyntaxError>): (reports: seq<Report>)
    ensures |reports| == |errors|
  {
    if errors == [] then [] else [TokenReport(errors[0])] + SyntaxReports(errors[1..])
  }

  lemma {:induction false} SyntaxReportsElement(errors: seq<SyntaxError>, i: nat)
    requires i < |errors|
    ensures SyntaxReports(errors)[i] == TokenReport(errors[i])
  {
    if i > 0 {
      SyntaxReportsElement(errors[1..], i - 1);
    }
  }

  /** Reporting two runs of errors writes their lines one after the other. */
  lemma {:induction false} SyntaxReportsAppend(a: seq<SyntaxError>, b: seq<SyntaxError>)
    ensures SyntaxReports(a + b) == SyntaxReports(a) + SyntaxReports(b)
  {
    if a == [] {
      assert a + b == b;
    } else {
      assert (a + b)[1..] == a[1..] + b;
      SyntaxReportsAppend(a[1..], b);
    }
  }

  /** A report about the end of input names no lexeme. */
  lemma ErrorAtEndText(token: Token, message: string)
    requires token.kind == Eof
    ensures ReportLine(TokenReport(SyntaxError(token, message)))
         == "[line " + IntText(token.line) + "] Error at end: " + message
  {
  }

  /** A report about any other token quotes its lexeme, as the parser's test expects. */
  lemma ErrorAtTokenText(token: Token, message: string)
    requires token.kind != Eof
    ensures ReportLine(TokenReport(SyntaxError(token, message)))
         == "[line " + IntText(token.line) + "] Error at '" + token.lexeme + "': " + message
  {
  }

  /** The report of the error production on a leading `+` on line 1. */
  lemma LeadingPlusReport(message: string)
    ensures ReportLine(TokenReport(SyntaxError(Token(Plus, "+", NilValue, 1), message)))
         == "[line 1] Error at '+': " + message
  {
    var token := Token(Plus, "+", NilValue, 1);
    ErrorAtTokenText(token, message);
    assert IntText(1) == "1";
    assert "[line " + "1" + "] Error at '" + "+" + "': " == "[line 1] Error at '+': ";
  }

  /** A scanner report has an empty `where`: two spaces never separate `Error` from the colon. */
  lemma LineErrorText(line: int, message: string)
    ensures ReportLine(LineReport(line, message)) == "[line " + IntText(line) + "] Error : " + message
  {
  }

  // ---------------------------------------------------------------- the Lox object

  /** The error channel of `object Lox` as a value: what was written, and the two flags. */
  datatype Channel = Channel(stderr: seq<Report>, hadError: bool, hadRuntimeError: bool)

  /** Between `before` and `after` the parser reported exactly `errors`, in order, and nothing else. */
  predicate Reported(before: Channel, after: Channel, errors: seq<SyntaxError>) {
    after == Channel(before.stderr + SyntaxReports(errors), before.hadError || errors != [], before.hadRuntimeError)
  }

  /** Reporting nothing leaves the channel as it was. */
  lemma ReportedNothing(c: Channel)
    ensures Reported(c, c, [])
  {
    assert c.stderr + SyntaxReports([]) == c.stderr;
  }

  /** Two runs of reports in a row are one run reporting both, in order. */
  lemma {:induction false} ReportedChain(c0: Channel, c1: Channel, c2: Channel, a: seq<SyntaxError>, b: seq<SyntaxError>)
    requires Reported(c0, c1, a) && Reported(c1, c2, b)
    ensures Reported(c0, c2, a + b)
  {
    SyntaxReportsAppend(a, b);
    AppendAssociative(c0.stderr, SyntaxReports(a), SyntaxReports(b));
  }

  /** The process-wide state of `object Lox` that the core reads and writes. */
  class Lox {
    var hadError: bool
    var hadRuntimeError: bool
    /** Every report written to the error stream, oldest first; `ReportLine` gives each line's text. */
    var stderr: seq<Report>

    constructor ()
      ensures State() == Channel([], false, false)
    {
      hadError, hadRuntimeError, stderr := false, false, [];
    }

    function State(): Channel
      reads this
    {
      Channel(stderr, hadError, hadRuntimeError)
    }

    /** `error(line, message)`: a report with an empty `where`. */
    method ErrorAtLine(line: int, message: string)
      modifies this
      ensures State() == Channel(old(stderr) + [LineReport(line, message)], true, old(hadRuntimeError))
    {
      stderr := stderr + [LineReport(line, message)];
      hadError := true;
    }

    /** `error(token, message)`: `at end` for the end-of-input token, the quoted lexeme otherwise. */
    method ErrorAtToken(token: Token, message: string)
      modifies this
      ensures Reported(old(State()), State(), [SyntaxError(token, message)])
    {
      stderr := stderr + [TokenReport(SyntaxError(token, message))];
      hadError := true;
    }

    /** `runtimeError(error)`: the message, then the line on a line of its own. */
    method RuntimeError(error: RuntimeError)
      modifies this
      ensures State() == Channel(old(stderr) + [RuntimeReport(error)], old(hadError), true)
    {
      stderr := stderr + [RuntimeReport(error)];
      hadRuntimeError := true;
    }

    /** What the prompt loop does after each line: forget syntax errors, keep runtime errors. */
    method EndPromptLine()
      modifies this
      ensures State() == old(State()).(hadError := false)
    {
      hadError := false;
    }
  }
}
