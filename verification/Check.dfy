/** Source checking, crates/rettp-application/src/check.rs, and what it guarantees for every later run. */
module Check {
  import opened Wrappers
  import opened IndexMap
  import opened Domain
  import opened Ast
  import opened Tokens
  import opened Grammar
  import opened Canonical
  import opened Variables
  import opened Interpolation
  import opened Resolver
  import opened WellFormed
  import opened ResolverFacts
  import opened LiteralDepth
  import opened CheckedTests
  import opened Execution
  import opened CheckedRuns
  import Lexing
  import LexerSpans
  import PrintLex
  import PrintParse
  import Parsing
  import Recovery
  import ParsedFits
  import DepthAlignment
  import ValidationSpec
  import ValidationExact
  import Validation
  import Converter
  import ConversionExact

  const DEFAULT_MAX_NESTING_DEPTH := 128

  datatype Diagnostic =
    | Lexical(lexical: Lexing.LexerErrorKind)
    | Syntax(syntax: Recovery.ParserErrorKind)
    | Semantic(semantic: ValidationSpec.ErrorKind)

  datatype CheckReport = CheckReport(suite: Option<TestSuite>, diagnostics: seq<Diagnostic>)

  /** The tokens of a text that lexes without errors. */
  function LexedKinds(text: string): Option<seq<TokenKind>> {
    var lexed := Lexing.Scanned(text, 0, Lexing.LexResult([], []));
    if lexed.errors == [] then Some(PrintLex.KindsOf(lexed.tokens)) else None
  }

  /** The tree of a text that lexes and parses without errors. */
  function ParsedAst(text: string): Option<SuiteAst> {
    var kinds :- LexedKinds(text);
    SuiteAt(kinds, DEFAULT_MAX_NESTING_DEPTH)
  }

  /** The tree of a text that passes every phase. */
  function CheckedAst(text: string, predefined: set<string>, maxDepth: nat): Option<SuiteAst> {
    var ast :- ParsedAst(text);
    if ValidationSpec.SuiteErrors(ast, predefined, maxDepth) == [] then Some(ast) else None
  }

  /** `validate_and_convert`: never a partial suite, and no panic in the converter. */
  method ValidateAndConvert(ast: SuiteAst, predefined: set<string>, maxDepth: nat)
    returns (suite: Option<TestSuite>, errors: ValidationSpec.Errors)
    ensures errors == ValidationSpec.SuiteErrors(ast, predefined, maxDepth)
    ensures suite.Some? <==> errors == []
    ensures suite.Some? ==> suite == Converter.SuiteFrom(ast)
  {
    errors := Validation.Validate(ast, predefined, maxDepth);
    if errors != [] {
      return None, errors;
    }
    ConversionExact.ConversionIsTotalAndLossless(ast, predefined, maxDepth);
    return Converter.SuiteFrom(ast), errors;
  }

  function LexicalDiagnostics(errors: seq<Lexing.LexerError>): (r: seq<Diagnostic>)
    ensures |r| == |errors|
  {
    seq(|errors|, k requires 0 <= k < |errors| => Lexical(errors[k].kind))
  }

  function SyntaxDiagnostics(errors: Recovery.Errors): (r: seq<Diagnostic>)
    ensures |r| == |errors| && forall k | 0 <= k < |r| :: r[k].Syntax?
  {
    seq(|errors|, k requires 0 <= k < |errors| => Syntax(errors[k]))
  }

  function SemanticDiagnostics(errors: ValidationSpec.Errors): (r: seq<Diagnostic>)
    ensures |r| == |errors|
  {
    seq(|errors|, k requires 0 <= k < |errors| => Semantic(errors[k]))
  }

  /** The diagnostics of the first phase that fails, and of no other. */
  ghost predicate Diagnosed(text: string, predefined: set<string>, maxDepth: nat, diagnostics: seq<Diagnostic>) {
    match LexedKinds(text)
    case None => diagnostics == LexicalDiagnostics(Lexing.Scanned(text, 0, Lexing.LexResult([], [])).errors)
    case Some(kinds) =>
      match SuiteAt(kinds, DEFAULT_MAX_NESTING_DEPTH)
      case None =>
        && diagnostics != [] && (forall k | 0 <= k < |diagnostics| :: diagnostics[k].Syntax?)
        && (match Recovery.RecoveredBlocks(kinds, 0, DEFAULT_MAX_NESTING_DEPTH, false, [], [])
            case Some(recovered) => diagnostics == SyntaxDiagnostics(recovered.1)
            case None => true)
      case Some(ast) =>
        diagnostics == SemanticDiagnostics(ValidationSpec.SuiteErrors(ast, predefined, maxDepth))
  }

  /**
   * A converted suite, or the diagnostics of the first phase that failed: all lexical errors, all semantic errors, or
   * syntax errors, which are the specified ones if all that is wrong is noise between blocks or tests.
   */
  method CheckSource(text: string, predefined: set<string>, maxDepth: nat) returns (report: CheckReport)
    ensures report.suite.Some? <==> CheckedAst(text, predefined, maxDepth).Some?
    ensures report.suite.Some? ==>
              report.suite == Converter.SuiteFrom(CheckedAst(text, predefined, maxDepth).value)
    ensures report.suite.Some? <==> report.diagnostics == []
    ensures Diagnosed(text, predefined, maxDepth, report.diagnostics)
  {
    hide Lexing.Scanned;
    hide SuiteAt;
    hide Recovery.RecoveredBlocks;
    hide ValidationSpec.SuiteErrors;
    var lexed := Lexing.Lex(text);
    if lexed.errors != [] {
      return CheckReport(None, LexicalDiagnostics(lexed.errors));
    }
    var ast, errors := Parsing.Parse(PrintLex.KindsOf(lexed.tokens), DEFAULT_MAX_NESTING_DEPTH);
    if errors != [] {
      return CheckReport(None, SyntaxDiagnostics(errors));
    }
    var suite, problems := ValidateAndConvert(ast, predefined, maxDepth);
    return CheckReport(suite, SemanticDiagnostics(problems));
  }

  lemma CheckedTreesFit(text: string, predefined: set<string>, maxDepth: nat)
    ensures CheckedAst(text, predefined, maxDepth).Some? ==>
              var ast := CheckedAst(text, predefined, maxDepth).value;
              && SuiteFits(ast, DEFAULT_MAX_NESTING_DEPTH)
              && ValidationSpec.SuiteErrors(ast, predefined, maxDepth) == []
  {
    hide Lexing.Scanned;
    hide SuiteAt;
    hide SuiteFits;
    hide ValidationSpec.SuiteErrors;
    if LexedKinds(text).Some? {
      ParsedFits.AcceptedTreesFit(LexedKinds(text).value, DEFAULT_MAX_NESTING_DEPTH);
    }
  }

  /**
   * The no-abort guarantee from source text on: whatever passes checking against the names of the initial store runs,
   * with every client, without an aborted test and without a name, capture or shape error, in exactly the scopes it was
   * checked in, and ends with exit code 0, 1 or 2.
   */
  lemma CheckedSourcesDoNotGoWrong(text: string, maxDepth: nat, engine: Engine, client: Client, initial: Contents)
    requires CheckedAst(text, Keys(initial), maxDepth).Some?
    ensures var ast := CheckedAst(text, Keys(initial), maxDepth).value;
            && Converter.SuiteFrom(ast).Some?
            && var run := RunSuite(engine, client, Converter.SuiteFrom(ast).value, initial);
               && |run.result.blocks| == |run.starts| == |ast.blocks|
               && (forall b | 0 <= b < |ast.blocks| ::
                     && AllSafe(ResultsOf(run.result.blocks[b]))
                     && ScopesAgree(ast, Keys(initial), b, run.starts[b]))
               && (run.result.status.Aborted? <==> CoreHasFailed(run.result))
               && ExitCode(run.result)
                  == (match run.result.status case Passed => 0 case Failed => TEST_FAILED case _ => CORE_ABORTED)
  {
    hide CheckedAst;
    hide RunSuite;
    hide AllSafe;
    hide ScopesAgree;
    hide CoreHasFailed;
    hide ExitCode;
    hide ValidationSpec.SuiteErrors;
    CheckedTreesFit(text, Keys(initial), maxDepth);
    var ast := CheckedAst(text, Keys(initial), maxDepth).value;
    CheckedSuitesDoNotGoWrong(engine, client, ast, maxDepth, initial);
  }

  /** With the default limits, checking never complains about nesting that parsing has let pass. */
  lemma ParsingBoundsNesting(text: string, predefined: set<string>)
    ensures ParsedAst(text).Some? ==>
              DepthAlignment.NoDepthError(
                ValidationSpec.SuiteErrors(ParsedAst(text).value, predefined, DEFAULT_MAX_NESTING_DEPTH))
  {
    hide Lexing.Scanned;
    hide SuiteAt;
    hide SuiteFits;
    hide ValidationSpec.SuiteErrors;
    hide DepthAlignment.NoDepthError;
    if ParsedAst(text).Some? {
      ParsedFits.AcceptedTreesFit(LexedKinds(text).value, DEFAULT_MAX_NESTING_DEPTH);
      DepthAlignment.ParsedTreesAreNotTooDeep(ParsedAst(text).value, predefined, DEFAULT_MAX_NESTING_DEPTH);
    }
  }

  /** Source text of a tree: its tokens, separated by spaces. */
  function SourceOf(ast: SuiteAst, commas: bool): string {
    PrintLex.Printed(BlocksTokens(ast.blocks, commas))
  }

  /**
   * Every tree the grammar allows is read back from its source text, unless it holds a decimal number or a capture name
   * that is not an ASCII identifier.
   */
  lemma ReadingUndoesWriting(ast: SuiteAst, commas: bool)
    requires SuiteFits(ast, DEFAULT_MAX_NESTING_DEPTH)
    requires forall k | 0 <= k < |BlocksTokens(ast.blocks, commas)| ::
               PrintLex.Printable(BlocksTokens(ast.blocks, commas)[k])
    ensures ParsedAst(SourceOf(ast, commas)) == Some(ast)
  {
    hide PrintLex.Printed;
    hide PrintLex.Printable;
    hide Lexing.Scanned;
    hide SuiteAt;
    hide SuiteFits;
    hide BlocksTokens;
    PrintLex.LexingUndoesPrinting(BlocksTokens(ast.blocks, commas));
    PrintParse.ParsingUndoesPrinting(ast, DEFAULT_MAX_NESTING_DEPTH, commas);
  }

  const CHECK_FAILED := 3

  /**
   * The `run` command without its input and output: check against the names of the store, then execute. The exit code
   * tells a rejected source (3) from a passed run (0), a failed one (1) and a failed core (2); nothing else happens.
   */
  method RunSource(engine: Engine, text: string, variables: VariableStore, client: Client)
    returns (code: nat, result: Option<SuiteResult>)
    ensures code <= 3 && (code == CHECK_FAILED <==> result.None?)
    ensures result.None? <==> CheckedAst(text, Keys(variables.Scope()), DEFAULT_MAX_NESTING_DEPTH).None?
    ensures result.Some? ==>
              var ast := CheckedAst(text, Keys(variables.Scope()), DEFAULT_MAX_NESTING_DEPTH).value;
              && Converter.SuiteFrom(ast).Some?
              && result.value == RunSuite(engine, client, Converter.SuiteFrom(ast).value, variables.Scope()).result
              && code == ExitCode(result.value)
  {
    hide CheckedAst;
    hide RunSuite;
    var report := CheckSource(text, Keys(variables.values), DEFAULT_MAX_NESTING_DEPTH);
    if report.diagnostics != [] {
      return CHECK_FAILED, None;
    }
    CheckedSourcesDoNotGoWrong(text, DEFAULT_MAX_NESTING_DEPTH, engine, client, variables.Scope());
    var executed, _ := Execute(engine, report.suite.value, variables, client);
    return ExitCode(executed), Some(executed);
  }
}
