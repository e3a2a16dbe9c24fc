/**
 * The pipeline of `Lox.run` and the prompt loop (Lox.kt): scan, parse, and reach the
 * interpreter only when no error has been reported; after each prompt line the
 * syntax-error flag is cleared and the runtime-error flag kept.
 */
module Driver {
  import opened Results
  import opened Syntax
  import opened Diagnostics
  import opened Lexer
  import opened Grammar
  import opened Parsing

  /** The error channel after `run(source)` from `before`: scan reports, then parse reports. */
  function RunChannel(before: Channel, source: string): Channel {
    var scanned := ScanFrom(source, 0, 1);
    var parsed := ParseProgram(Tokenize(source));
    Channel(before.stderr + UnexpectedReports(scanned.errorLines) + SyntaxReports(parsed.errors),
            before.hadError || scanned.errorLines != [] || parsed.errors != [],
            before.hadRuntimeError)
  }

  /** Whether `run(source)` from `before` gets past the gate to the interpreter. */
  predicate Interprets(before: Channel, source: string) {
    !RunChannel(before, source).hadError
  }

  /** `run`: the statements parsed, and whether the interpreter is reached. */
  method Run(source: string, lox: Lox) returns (statements: seq<Stmt>, interpreted: bool)
    modifies lox
    ensures statements == ParseProgram(Tokenize(source)).statements
    ensures lox.State() == RunChannel(old(lox.State()), source)
    ensures interpreted == Interprets(old(lox.State()), source)
  {
    ghost var c0 := lox.State();
    var scanner := new Scanner(source);
    var tokens := scanner.ScanTokens(lox);
    ghost var c1 := lox.State();
    var parser := new Parser(tokens);
    statements := parser.Parse(lox);
    RunSteps(source, tokens, c0, c1, lox.State());
    // Stop if there was a syntax error.
    interpreted := !lox.hadError;
  }

  /** The channel after scanning and then parsing is the one `RunChannel` describes. */
  lemma RunSteps(source: string, tokens: seq<Token>, c0: Channel, c1: Channel, c2: Channel)
    requires var scanned := ScanFrom(source, 0, 1);
             && tokens == scanned.tokens + [EofToken(scanned.line)]
             && c1 == Channel(c0.stderr + UnexpectedReports(scanned.errorLines), c0.hadError || scanned.errorLines != [], c0.hadRuntimeError)
    requires WellFormed(tokens) && Reported(c1, c2, ParseFrom(tokens, 0).errors)
    ensures tokens == Tokenize(source)
    ensures c2 == RunChannel(c0, source)
  {
    assert source[0..] == source;
  }

  /** One turn of the prompt loop: `run(line)`, then `hadError = false`. */
  method PromptLine(line: string, lox: Lox) returns (statements: seq<Stmt>, interpreted: bool)
    modifies lox
    ensures statements == ParseProgram(Tokenize(line)).statements
    ensures interpreted == Interprets(old(lox.State()), line)
    ensures lox.State() == RunChannel(old(lox.State()), line).(hadError := false)
  {
    statements, interpreted := Run(line, lox);
    lox.EndPromptLine();
  }

  /**
   * The gate: `run` reaches the interpreter exactly when no error was pending and
   * neither scanning nor parsing reported one; a runtime error never closes it.
   */
  lemma RunGate(before: Channel, source: string)
    ensures Interprets(before, source) <==>
            !before.hadError && ScanFrom(source, 0, 1).errorLines == [] && ParseProgram(Tokenize(source)).errors == []
    ensures Interprets(before, source) == Interprets(before.(hadRuntimeError := !before.hadRuntimeError), source)
  {
  }

  /**
   * Lines at the prompt are independent: whatever the previous line reported, the
   * next line is interpreted exactly when it has no errors of its own, and a runtime
   * error reported before is still flagged after it.
   */
  lemma PromptLinesIndependent(before: Channel, previous: string, next: string)
    ensures var between := RunChannel(before, previous).(hadError := false);
            && (Interprets(between, next) <==> Interprets(Channel([], false, false), next))
            && (before.hadRuntimeError ==> RunChannel(between, next).hadRuntimeError)
  {
  }
}
