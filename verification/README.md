# Rettp, verified

Rettp compiles and runs HTTP test suites. Source text goes through a lexer, an error-recovering parser, a semantic
validator with variable scopes and a lossless conversion. A suite then runs sequentially: the text of each request and
expectation is interpolated, the request is sent, the reply is judged by a bounded JSON assertion engine, and captured
values are committed to a variable store that later tests read.

This project models those phases in Dafny and proves that they fit together. Loops and objects that change in place are
methods and classes (`Validator`, `Parser`, `Lexer`, `Evaluation`, `PendingCaptures`, `VariableStore`), each proved
against a function; what the program promises is then proved about these functions.

The HTTP client is an arbitrary function of all requests sent so far, which returns a reply or refuses. Unicode tables,
float formatting and decimal parsing are constants without a value, so every result holds for all of them.

How the modules build on each other:

- Text and maps: `Wrappers`, `Text`, `IndexMap`, `JsonValues`, `Template`.
- Front end: `Tokens`, `Lexing` (with `LexerSpans`, `PrintLex`), `Grammar` (the grammar as a parser without recovery),
  `Recovery` (where recovery resumes), `Parsing` (the recovering parser), `Canonical`, `PrintParse`,
  `ParsedFits`, `NoiseRecovery` and `ListNoise` (what recovery keeps), `Ast`.
- Validation: `ValidationSpec` (diagnostics as functions), `Validation` (the validator), `WellFormed` (the rules, said
  declaratively), `ValidationExact`, `DepthAlignment`.
- Conversion: `Domain`, `Converter`, `ConversionExact`, `CheckedTests`.
- Run time: `Variables`, `Interpolation`, `Resolver`, `ResolverFacts`, `ResolvedShape`, `LiteralDepth`, `Capture`.
- Assertions: `Expectation`, `Response`, `AssertionSpec`, `AssertionEngine`, `Matching`, `Numbers`.
- Reports: `Junit`, `JunitExact`, `RunReports`.
- Execution: `Execution`, `RunShape`, `Isolation`, `CheckedRuns`, and `Check`, which joins all phases.

`dafny verify dfyconfig.toml` checks the whole project.

Where the code and its documentation disagree, the model follows the code: `ValidationContext::with_max_depth` is
documented to permit the root level with a limit of zero (crates/rettp-parser/src/semantic/context.rs:65-71), but the
validator counts the root as a level: by `DepthAlignment.NestingIsExact` a limit of zero admits no array, object or object
assertion at all, and `DepthAlignment.LimitZeroRejectsTheRoot` shows a tree.

## Model

| member | source | states |
|---|---|---|
| `Check.CheckedSourcesDoNotGoWrong` | crates/rettp-application/src/check.rs:149-192 | For every source text that passes checking against the names of the initial store, and every client: conversion succeeds, no test is ever aborted, no test ends with a name, capture or shape error, every executed test starts in exactly the scope it was validated in, the suite is aborted iff core failed, and the exit code is 0, 1 or 2 |
| `CheckedRuns.CheckedSuitesDoNotGoWrong` | crates/rettp-application/src/execution.rs:67-299 | The same for every validated tree with at least one block; preflight also passes |
| `Check.CheckSource` | crates/rettp-application/src/check.rs:149-192 | A converted suite exactly for texts that lex, parse and validate, and otherwise diagnostics of the first failing phase only: all lexical errors, all semantic errors, or syntax errors, which are exactly the specified ones if all that is wrong is noise between blocks or tests |
| `Check.ValidateAndConvert` | crates/rettp-parser/src/semantic/mod.rs:105-118 | A suite exactly if there are no errors, and then the complete conversion: the converter's expectations never fail here |
| `Check.RunSource` | crates/rettp-cli/src/command.rs:54-112 | Exit code 3 iff the source is rejected, otherwise the exit code of exactly the specified run from the store's names |
| `Check.ParsingBoundsNesting` | crates/rettp-parser/src/parser/mod.rs:26-32 | With the default limits, validation never reports nesting for a text the parser accepts |
| `Check.ReadingUndoesWriting` | crates/rettp-parser/src/parser/mod.rs:396-400 | Writing any allowed tree of printable tokens (no decimal numbers, captures named by ASCII identifiers) as text and lexing and parsing the text gives the tree back, with or without optional commas |
| `Validation.Validate` | crates/rettp-parser/src/semantic/validator.rs:18-24 | Returns exactly the specified diagnostics, in traversal order |
| `Validation.Validator.ValidateSuite` | crates/rettp-parser/src/semantic/validator.rs:32-87 | The loop over blocks with its three scopes adds exactly the specified diagnostics; the core is validated first wherever it stands |
| `Validation.Validator.ValidateTest` | crates/rettp-parser/src/semantic/validator.rs:89-115 | Appends the test's diagnostics and returns the scope grown by its captures |
| `Validation.Validator.ValidateRequest` | crates/rettp-parser/src/semantic/validator.rs:117-175 | Duplicate sections, names across sections, bodies on methods without one, and values, in order |
| `Validation.Validator.ValidateExpectation` | crates/rettp-parser/src/semantic/validator.rs:177-245 | Sections of an expectation with captures accumulated across them |
| `Validation.Validator.ValidateField` | crates/rettp-parser/src/semantic/validator.rs:264-348 | Missing assertions, type mismatches, nested restrictions and the capture, after the captures nested inside |
| `Validation.Validator.ValidateValue` | crates/rettp-parser/src/semantic/validator.rs:383-400 | Recursion through arrays and objects with the depth limit |
| `ValidationExact.ValidationIsExact` | crates/rettp-parser/src/semantic/validator.rs:32-87 | No diagnostic is reported iff the suite is well formed, said declaratively: one core, unique names, closed text in the scope of each test, typed fields, fresh captures, bounded depth |
| `ValidationExact.TestDecided` | crates/rettp-parser/src/semantic/validator.rs:89-115 | A test adds no error iff it is well formed in its scope, and then the scope grows by exactly its captured names |
| `ValidationExact.AssertionDecided` | crates/rettp-parser/src/semantic/validator.rs:247-262 | An object assertion adds no error iff it is well formed and its captures, in declaration order, are all new; then exactly these are added |
| `ValidationExact.RequestDecided` | crates/rettp-parser/src/semantic/validator.rs:117-175 | A request adds no error iff path, sections, names, values and method restrictions are all right |
| `ValidationExact.ValueDecided` | crates/rettp-parser/src/semantic/validator.rs:383-432 | A value adds no error iff all text is closed in the scope, keys are unique and non-empty and the depth fits |
| `DepthAlignment.NestingIsExact` | crates/rettp-parser/src/semantic/validator.rs:462-473 | For every tree and limit, validation reports nesting iff the containers of the tree (values, request bodies and object assertions) are nested deeper than the limit |
| `DepthAlignment.LimitZeroRejectsTheRoot` | crates/rettp-parser/src/semantic/context.rs:65-71 | A body that asserts a single field is rejected under a limit of zero and accepted under a limit of one |
| `DepthAlignment.ParsedTreesAreNotTooDeep` | crates/rettp-parser/src/semantic/validator.rs:462-473 | A tree within the parser's limit never triggers the same limit in the validator |
| `ConversionExact.ConversionIsTotalAndLossless` | crates/rettp-parser/src/semantic/converter.rs:20-181 | For a validated tree none of the converter's expectations fails, and every block, test, header, query entry, body member, asserted field and capture survives in source order |
| `Converter.ConvertRequest` | crates/rettp-parser/src/semantic/converter.rs:53-84 | The insertion loop computes the specified request |
| `Converter.ConvertExpectation` | crates/rettp-parser/src/semantic/converter.rs:86-122 | The loop computes the specified expectation, or fails exactly where the source would panic |
| `Converter.ConvertObjectAssertion` | crates/rettp-parser/src/semantic/converter.rs:137-150 | The loop computes the specified assertion, or fails exactly where the source would panic |
| `ConversionExact.RequestConverted` | crates/rettp-parser/src/semantic/converter.rs:53-84 | A validated request keeps method, path and the entries of each section, in order |
| `ConversionExact.AssertionConverted` | crates/rettp-parser/src/semantic/converter.rs:137-173 | A validated assertion converts, field by field in order, each with its declared or inferred type |
| `CheckedTests.TestKeeps` | crates/rettp-parser/src/semantic/validator.rs:89-115 | The converted test is closed in the scope it was validated in, captures only new names, keeps literals within the limit, and extends the scope by the same names as in validation |
| `CheckedTests.TestsKeep` | crates/rettp-parser/src/semantic/validator.rs:40-48 | Validator and run agree on the scope of every test of a sequence |
| `CheckedTests.CheckedLiteralsFit` | crates/rettp-runtime/src/resolver.rs:207-260 | For every store: under a runtime limit at least as large as the one used for checking, resolving a checked test exceeds the limit iff the first thing to fail is a placeholder for a structured variable too deep for its place; literals never do |
| `Execution.ExecuteTest` | crates/rettp-application/src/execution.rs:227-299 | Computes the specified result, scope and request history; nothing is committed unless the test passes |
| `Execution.ExecuteCore` | crates/rettp-application/src/execution.rs:158-192 | The loop runs tests until the first that does not pass and skips the rest |
| `Execution.ExecutePipeline` | crates/rettp-application/src/execution.rs:194-225 | The same for pipelines, which are never aborted |
| `Execution.ExecuteBlocks` | crates/rettp-application/src/execution.rs:117-143 | Every block after core runs on its own copy of the scope after core, in source order |
| `Execution.Execute` | crates/rettp-application/src/execution.rs:67-156 | Whole runs equal their specification; the caller's store is never modified |
| `Execution.CoresAreFirst` | crates/rettp-application/src/execution.rs:302-323 | After preflight, a core block is the first and only one |
| `CheckedRuns.TestIsSafe` | crates/rettp-application/src/execution.rs:227-299 | A test that is ready for its scope passes and adds exactly its captured names, or fails and changes nothing; it is never aborted |
| `CheckedRuns.SequenceIsSafe` | crates/rettp-application/src/execution.rs:158-225 | Every executed test of a ready sequence starts in the scope it was validated in |
| `CheckedRuns.PreflightPasses` | crates/rettp-application/src/execution.rs:302-323 | Preflight accepts every checked suite |
| `RunShape.CompletedRunsAreInOrder` | crates/rettp-application/src/execution.rs:78-156 | Result i has the kind, name and tests of block i; core's requests come first and the others follow in source order, each being the resolution of its test in its start scope |
| `RunShape.SequenceShape` | crates/rettp-application/src/execution.rs:158-225 | Passed tests, then at most one that is not, then skipped ones; one request per executed test, except that the last may have sent none |
| `RunShape.CoreFailureStopsTheSuite` | crates/rettp-application/src/execution.rs:91-115 | After a failed core every other block is skipped and nothing more is sent |
| `RunShape.InvalidSuitesSendNothing` | crates/rettp-application/src/execution.rs:302-340 | A run ends in an internal error iff the suite is empty, has two cores or an empty pipeline; then nothing was sent, every test of every block is skipped under its name, and the reason given is the first of the three that applies |
| `RunShape.PassedMeansAllPassed` | crates/rettp-application/src/execution.rs:117-156 | An executable suite passes iff every test passes |
| `Isolation.BlocksAreIsolated` | crates/rettp-application/src/execution.rs:119-143 | With a client that answers by the request alone, a block has the same result in any two suites with the same core, whatever other blocks there are and wherever they stand |
| `AssertionEngine.Evaluate` | crates/rettp-assertion/src/engine.rs:47-63 | The stateful, early-stopping engine reports exactly the bounded form of the full failure list |
| `AssertionEngine.Evaluation.PushFailure` | crates/rettp-assertion/src/engine.rs:89-95 | One more failure, or the mark that there are more |
| `AssertionEngine.Evaluation.AssertObject` | crates/rettp-assertion/src/engine.rs:211-262 | Adds exactly the failures of declared fields and of undeclared ones, stopping early when full |
| `AssertionEngine.Evaluation.AssertField` | crates/rettp-assertion/src/engine.rs:264-294 | Type, value and nested failures, in order |
| `AssertionEngine.Evaluation.CompareJson` | crates/rettp-assertion/src/engine.rs:296-427 | Adds exactly the differences between two values, within the depth limit |
| `AssertionEngine.Evaluation.AssertHeaders` | crates/rettp-assertion/src/engine.rs:112-134 | Adds exactly the failures of the header assertions, in order |
| `AssertionEngine.Evaluation.AssertBody` | crates/rettp-assertion/src/engine.rs:136-209 | Adds exactly the failures of the body assertion |
| `AssertionEngine.BoundedReportIsPrefix` | crates/rettp-assertion/src/engine.rs:89-95 | The report holds the first min(N, n) of all n failures and is marked iff n > N, so the verdict does not depend on N |
| `Matching.ReportIsExact` | crates/rettp-assertion/src/engine.rs:47-444 | The report is empty iff the response satisfies the expectation, said without evaluation order |
| `Matching.CompareIsExact` | crates/rettp-assertion/src/engine.rs:296-427 | No difference iff the values match (objects partially, arrays in length and order) and the expected containers fit the depth limit |
| `Matching.ComparisonIsPreorder` | crates/rettp-assertion/src/engine.rs:296-427 | Comparison is reflexive on canonical values within the limit, and transitive |
| `Numbers.RoundingIsCorrect` | crates/rettp-assertion/src/engine.rs:564-567 | The conversion of integers to floats yields a float, none is nearer, and of two equally near ones it is the one with even significand |
| `Numbers.ConversionIsMonotone` | crates/rettp-assertion/src/engine.rs:564-567 | Larger integers are converted to floats at least as large |
| `Numbers.NumbersEqualMeaning` | crates/rettp-assertion/src/engine.rs:540-567 | Although integers are compared as rounded floats: numbers are equal iff they are the same number and, across integer and float, of magnitude at most 2^53 - 1 |
| `Numbers.NumbersEqualIsEquivalence` | crates/rettp-assertion/src/engine.rs:540-567 | Reflexive, symmetric and transitive |
| `Numbers.RelatedMeansRoundedAlike` | crates/rettp-assertion/src/engine.rs:540-567 | Under any bound, two integers are equal to one float iff both are within the bound and are rounded to the same value |
| `Numbers.TransitivityIsExact` | crates/rettp-assertion/src/engine.rs:16-16 | Equality under a bound is transitive iff the bound is at most 2^53 |
| `Numbers.BoundIsTheLargest` | crates/rettp-assertion/src/engine.rs:16-16 | 2^53 - 1 is the largest bound within which no float also stands for another integer, inside or outside the bound |
| `Capture.ExtractObject` | crates/rettp-runtime/src/capture.rs:174-222 | Sharing one root among nested captures stages exactly what deep cloning would; the path is restored on success |
| `Capture.EvaluateCaptures` | crates/rettp-runtime/src/capture.rs:31-78 | A transaction is staged iff the report is a success |
| `Capture.CaptureAfterSuccess` | crates/rettp-runtime/src/capture.rs:31-78 | After a successful report the only possible error is a repeated name; otherwise every declared capture holds the response value at its full path, in order |
| `Capture.StageFromExact` | crates/rettp-runtime/src/capture.rs:174-222 | Staging a matched object succeeds iff the names are fresh, and then holds the values at the declared paths |
| `Variables.AsJson` | crates/rettp-runtime/src/variable.rs:145-161 | Walking a stored path always arrives, at the value the path denotes |
| `Variables.PendingCaptures.Insert` | crates/rettp-runtime/src/capture.rs:123-135 | Adds a new name and rejects a repeated one, changing nothing |
| `Variables.VariableStore.Commit` | crates/rettp-runtime/src/variable.rs:331-339 | All staged values or none: rejected iff one of the names is already visible |
| `Variables.VariableStore.InsertPredefined` | crates/rettp-runtime/src/variable.rs:292-296 | Adds or replaces one value |
| `Interpolation.Interpolate` | crates/rettp-runtime/src/interpolation.rs:35-68 | The scanning loop computes the specified substitution |
| `Interpolation.InterpolationIsExact` | crates/rettp-runtime/src/interpolation.rs:35-68 | Succeeds iff every placeholder is complete, defined, scalar and short enough and the result fits the byte limit; the result is literals and scalar texts in order, never rescanned |
| `Template.VariableNames` | crates/rettp-parser/src/semantic/interpolation.rs:9-28 | The validator's scanner returns the placeholder names, or the first malformed placeholder |
| `Template.ReadingIsUnique` | crates/rettp-runtime/src/interpolation.rs:35-68 | There is exactly one left-to-right reading of a raw text, and scanning finds it |
| `Template.ClosedMeaning` | crates/rettp-parser/src/semantic/interpolation.rs:9-28 | The names looked up at run time are exactly the names the validator checked |
| `Template.ExactPlaceholderMeaning` | crates/rettp-runtime/src/interpolation.rs:176-188 | The whole-text test holds iff the reading is one placeholder and nothing else |
| `ResolverFacts.ClosedTestSettles` | crates/rettp-runtime/src/resolver.rs:48-149 | Resolving closed requests and expectations fails only for sizes or types, never for names |
| `ResolverFacts.CloneIsExact` | crates/rettp-runtime/src/interpolation.rs:252-277 | A substituted value passes iff its depth plus its own depth fits, and is then unchanged |
| `ResolverFacts.JsonToResolvedIsExact` | crates/rettp-runtime/src/interpolation.rs:215-250 | The same for request values: one that passes stands for the JSON it was made from, items and members in order and scalars equal |
| `ResolvedShape.ExpectationShapeKept` | crates/rettp-runtime/src/resolver.rs:109-260 | Resolution changes neither what is captured, nor where, nor the typing captures rely on |
| `ResolvedShape.EngineDepthNeverDecides` | crates/rettp-assertion/src/engine.rs:429-444 | An expectation resolved within the resolver's limit is judged the same by an engine with any larger limit |
| `LiteralDepth.RequestFailure` | crates/rettp-runtime/src/resolver.rs:48-107 | Resolution fails exactly with the first failure among all levels, texts and numbers of the request, in source order |
| `LiteralDepth.RequestNotTooDeep` | crates/rettp-runtime/src/resolver.rs:48-107 | For every scope: a request whose literals are within the limit exceeds it iff the first failure is an exact placeholder at some depth d that names a structured variable whose own depth does not fit below d |
| `LiteralDepth.ExpectationNotTooDeep` | crates/rettp-runtime/src/resolver.rs:109-149 | The same for expectations, with their values, fields and nested assertions |
| `Parsing.Parse` | crates/rettp-parser/src/parser/mod.rs:88-102 | Ends on every token sequence; no errors iff the grammar accepts the tokens, and then exactly the tree of the grammar |
| `Parsing.Parser.ParseSuite` | crates/rettp-parser/src/parser/suite_parser.rs:12-66 | The top loop against the grammar, at most one core and no empty suite; with noise between sound blocks, exactly the specified blocks and errors |
| `Parsing.Parser.ParseBlock` | crates/rettp-parser/src/parser/block_parser.rs:11-69 | Core, pipeline and standalone blocks against the grammar |
| `Parsing.Parser.ParsePipelineTests` | crates/rettp-parser/src/parser/block_parser.rs:45-63 | The tests of a pipeline and its closing brace, with an error iff there are none |
| `Parsing.Parser.ParseTests` | crates/rettp-parser/src/parser/block_parser.rs:17-29 | The container loop against the grammar; with noise between sound tests, exactly the sound tests and one error for each run of noise |
| `Parsing.Parser.ParseTestItems` | crates/rettp-parser/src/parser/test_parser.rs:18-60 | Requests before expectations, at least one of each, against the grammar; with noise between sound parts, exactly these and one error for each run |
| `Parsing.Parser.ParseRequest` | crates/rettp-parser/src/parser/request_parser.rs:15-55 | A request against the grammar |
| `Parsing.Parser.ParseRequestSections` | crates/rettp-parser/src/parser/request_parser.rs:22-46 | The section loop against the grammar; with noise between sound sections, exactly these and one error for each run |
| `Parsing.Parser.ParseRequestHeaders` | crates/rettp-parser/src/parser/request_parser.rs:79-107 | The header loop with recovery |
| `Parsing.Parser.ParseExpectation` | crates/rettp-parser/src/parser/expectation_parser.rs:16-48 | An expectation against the grammar |
| `Parsing.Parser.ParseExpectationSections` | crates/rettp-parser/src/parser/expectation_parser.rs:23-42 | The section loop against the grammar; with noise between sound sections, exactly these and one error for each run |
| `Parsing.Parser.ParseResponseHeaders` | crates/rettp-parser/src/parser/expectation_parser.rs:81-136 | The header assertion loop with recovery |
| `Parsing.Parser.ParseBodyContent` | crates/rettp-parser/src/parser/expectation_parser.rs:138-176 | The four forms of body assertions |
| `Parsing.Parser.ParseObjectAssertion` | crates/rettp-parser/src/parser/expectation_parser.rs:178-219 | A nested assertion within the nesting limit; nesting is balanced on return |
| `Parsing.Parser.ParseFields` | crates/rettp-parser/src/parser/expectation_parser.rs:198-210 | The field loop against the grammar; with noise between sound fields, exactly these and one error for each run |
| `Parsing.Parser.ParseFieldAssertion` | crates/rettp-parser/src/parser/expectation_parser.rs:221-270 | Type, comparison or nested assertion, and capture, with the two extra error conditions |
| `Parsing.Parser.ParseValue` | crates/rettp-parser/src/parser/value_parser.rs:13-47 | A value against the grammar, or nothing and no error where none starts |
| `Parsing.Parser.ParseObjectValueEntries` | crates/rettp-parser/src/parser/value_parser.rs:76-103 | The entry loop against the grammar, of which every round consumes a token; with noise between sound entries, exactly these and one error for each run |
| `Parsing.Parser.ParseArrayItems` | crates/rettp-parser/src/parser/value_parser.rs:124-152 | The item loop against the grammar, of which every round consumes a token; with noise between sound items, exactly these and one error for each run |
| `Parsing.Parser.SynchronizeObjectEntry` | crates/rettp-parser/src/parser/value_parser.rs:154-163 | Stops behind the first comma or in front of the first boundary, and always moves unless it is at one |
| `Parsing.Parser.SynchronizeExpectationEntry` | crates/rettp-parser/src/parser/expectation_parser.rs:329-338 | The same between fields and header assertions |
| `Parsing.Parser.SkipBalancedContainer` | crates/rettp-parser/src/parser/mod.rs:336-347 | Skips to behind the bracket that closes the container, counting nested ones |
| `Parsing.Parser.EnterNesting` | crates/rettp-parser/src/parser/mod.rs:317-330 | One level deeper, or an error at the limit |
| `PrintParse.ParsingUndoesPrinting` | crates/rettp-parser/src/parser/suite_parser.rs:12-55 | Every tree the grammar allows is parsed back from its tokens, with or without optional commas |
| `PrintParse.ValueParses` | crates/rettp-parser/src/parser/value_parser.rs:13-152 | The same for values |
| `PrintParse.AssertionParses` | crates/rettp-parser/src/parser/expectation_parser.rs:178-310 | The same for object assertions |
| `ParsedFits.ParsedTreesAreExact` | crates/rettp-parser/src/parser/suite_parser.rs:12-55 | A tree is the result of an error-free parse iff it respects the grammar's own rules and the nesting limit |
| `NoiseRecovery.NoiseIsHarmless` | crates/rettp-parser/src/parser/suite_parser.rs:12-66 | Runs of tokens that cannot start a block or test, put anywhere between blocks and between contained tests, lose no block and no test, and cost exactly one error each, for the first token of the run |
| `NoiseRecovery.PiecesRecovered` | crates/rettp-parser/src/parser/block_parser.rs:71-76 | The same for the tests of one container: recovery resumes exactly at the next test or the closing brace |
| `ListNoise.PartsSurvive` | crates/rettp-parser/src/parser/test_parser.rs:63-67 | The same for the requests and expectations of a test |
| `ListNoise.RequestSectionsSurvive` | crates/rettp-parser/src/parser/request_parser.rs:131-143 | The same for the sections of a request |
| `ListNoise.ExpectationSectionsSurvive` | crates/rettp-parser/src/parser/expectation_parser.rs:312-327 | The same for the sections of an expectation |
| `ListNoise.EntriesSurvive` | crates/rettp-parser/src/parser/value_parser.rs:154-163 | Entries of an object separated by commas, with runs of tokens that start no entry among them: every entry survives in order, and each run is one error |
| `ListNoise.ItemsSurvive` | crates/rettp-parser/src/parser/value_parser.rs:165-174 | The same for the items of an array |
| `ListNoise.FieldsSurvive` | crates/rettp-parser/src/parser/expectation_parser.rs:329-338 | The same for the fields of an assertion |
| `Lexing.Lex` | crates/rettp-parser/src/lexer/scanner.rs:42-57 | Ends on every text, with exactly the specified tokens and errors |
| `Lexing.Lexer.ScanToken` | crates/rettp-parser/src/lexer/scanner.rs:59-113 | One lexeme: nothing, a token or an error, with its byte span |
| `Lexing.Lexer.ScanString` | crates/rettp-parser/src/lexer/scanner.rs:167-224 | Escapes, unterminated strings and recovery |
| `Lexing.Lexer.ScanNumber` | crates/rettp-parser/src/lexer/scanner.rs:126-165 | Integers in the range of i64, decimals, or an error with the text |
| `Lexing.Lexer.RecoverString` | crates/rettp-parser/src/lexer/scanner.rs:226-241 | Behind the closing quote or in front of the end of the line |
| `LexerSpans.SpansAreValid` | crates/rettp-parser/src/lexer/scanner.rs:42-113 | One end marker, at the end; all other spans non-empty, disjoint, increasing, in bounds and on character boundaries; error spans in bounds and on boundaries |
| `LexerSpans.GapsAreTrivia` | crates/rettp-parser/src/lexer/scanner.rs:59-113 | Without errors, only white space and comments lie between tokens |
| `PrintLex.LexingUndoesPrinting` | crates/rettp-parser/src/lexer/scanner.rs:59-224 | Printing any tokens but decimal numbers, separated by spaces, and lexing the text gives the same kinds and no errors |
| `PrintLex.StringLexes` | crates/rettp-parser/src/lexer/scanner.rs:167-224 | Any text, escaped and quoted, is read back |
| `PrintLex.IntegerLexes` | crates/rettp-parser/src/lexer/scanner.rs:126-165 | Any i64 is read back from its decimal text |
| `PrintLex.KeywordsAreWords` | crates/rettp-parser/src/lexer/token.rs:119-160 | Every keyword is read back from its word |
| `Junit.Render` | crates/rettp-reporter/src/junit.rs:18-53 | The rendering loops write exactly the specified lines |
| `Junit.RenderBlock` | crates/rettp-reporter/src/junit.rs:56-81 | One suite element with its counts and its test cases |
| `Junit.RenderTest` | crates/rettp-reporter/src/junit.rs:83-143 | One test case with its outcome |
| `Junit.CountBlock` | crates/rettp-reporter/src/junit.rs:153-169 | The counting loop, with saturation |
| `Junit.CountReport` | crates/rettp-reporter/src/junit.rs:171-180 | The sum over blocks, with saturation |
| `Junit.Escape` | crates/rettp-reporter/src/junit.rs:194-213 | The escaping loop |
| `JunitExact.DocumentCountsItself` | crates/rettp-reporter/src/junit.rs:18-180 | The counts in the root element are those of the testcase, failure, error and skipped elements in the rendered text itself, up to saturation at the largest 64-bit number |
| `RunReports.DocumentTalliesRun` | crates/rettp-reporter/src/model.rs:38-59 | The elements in the document of a run are its tests by outcome, and one error for a suite-level error |
| `RunReports.CleanDocumentMeansPassed` | crates/rettp-reporter/src/junit.rs:14-18 | For every suite, client and wording: the document of the run has a test case for every test of the suite, is free of failures and errors iff the run has passed, and then shows nothing skipped |
| `JunitExact.EscapingIsReversible` | crates/rettp-reporter/src/junit.rs:194-213 | Reading the entities of an escaped text of legal characters gives the text back |
| `JunitExact.EscapedIsHarmless` | crates/rettp-reporter/src/junit.rs:194-213 | Escaped text contains no opening bracket, and in attributes no quote |

## Left out

- Source spans in the syntax tree and in parser and validator errors: their contents do not influence any decision; the
  lexer's spans are modelled.
- Parser errors keep their kind and the token found, not the description of what was expected.
- Parsing.Parse: of a text with a malformed construct (rather than noise between sound ones) only that there is an error,
  that the parser ends, and that nesting is balanced.
- Parsing.Parser.ParseSuite: the same, for a malformed construct within it.
- Parsing.Parser.ParseBlock: the same, for a malformed construct within it.
- Parsing.Parser.ParsePipelineTests: the same, for a malformed construct within it.
- Parsing.Parser.ParseTests: the same, for a malformed construct within it.
- Parsing.Parser.ParseTestItems: the same, for a malformed construct within it.
- Parsing.Parser.ParseRequest: the same, for a malformed construct within it.
- Parsing.Parser.ParseRequestSections: the same, for a malformed construct within it.
- Parsing.Parser.ParseRequestHeaders: the same, for a malformed construct within it.
- Parsing.Parser.ParseExpectation: the same, for a malformed construct within it.
- Parsing.Parser.ParseExpectationSections: the same, for a malformed construct within it.
- Parsing.Parser.ParseResponseHeaders: the same, for a malformed construct within it.
- Parsing.Parser.ParseBodyContent: the same, for a malformed construct within it.
- Parsing.Parser.ParseObjectAssertion: the same, for a malformed construct within it.
- Parsing.Parser.ParseFields: the same, for a malformed construct within it.
- Parsing.Parser.ParseFieldAssertion: the same, for a malformed construct within it.
- Parsing.Parser.ParseValue: the same, for a malformed construct within it.
- Parsing.Parser.ParseObjectValueEntries: the same, for a malformed construct within it.
- Parsing.Parser.ParseArrayItems: the same, for a malformed construct within it.
- Check.CheckSource: which syntax errors a malformed construct yields, for the same reason.
- Check.RunSource: exit codes of failing input, configuration, report writing and interruption, which are I/O.
- Separate syntax-tree enumerations for methods, types and match modes: the converter maps them one to one, and the model
  uses the domain's.
- Wording of failures and errors, value previews and rendered paths: a failure is its location and kind, an error its
  kind and data.
- Durations and clocks, and Ctrl+C.
- The HTTP adapter (URLs, MIME types, body limits, timeouts): an arbitrary client stands for it; header names of
  responses are taken to be stored in lower case.
- Decimal texts to floats and back: constants without a value. Floats are finite reals or one non-finite value.
- Command-line arguments, environment and dotenv files, reading and writing of files.
- Terminal and JSON reports; wording, previews, redaction and durations in reports are arbitrary functions.
- Debug output and redaction, `Display` texts, configuration constructors and builders: configurations are taken within
  their validated ranges.
