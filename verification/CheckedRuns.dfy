/** Checked suites do not go wrong, whatever the server does. */
module CheckedRuns {
  import opened Wrappers
  import opened IndexMap
  import opened JsonValues
  import opened Response
  import opened Domain
  import opened Ast
  import opened AssertionEngine
  import opened Variables
  import opened RuntimeErrors
  import opened Expectation
  import opened Resolver
  import opened ResolverFacts
  import opened Capture
  import opened ResolvedShape
  import opened ValidationSpec
  import opened WellFormed
  import opened Converter
  import opened ConversionExact
  import opened CheckedTests
  import opened Execution
  import ValidationExact

  /** The only ways a test of a checked suite ends: no error about names, captures or internal assumptions. */
  predicate Safe(r: TestResult) {
    match r.status
    case Passed => r.failures == [] && r.error.None?
    case Skipped => r.failures == [] && r.error.Some? && r.error.value.kind.DependencyFailed?
    case Aborted => false
    case Failed =>
      if r.error.None? then r.failures != []
      else
        && r.failures == []
        && match r.error.value.cause
           case ClientCause(_) => true
           case RuntimeCause(error) => r.error.value.kind.VariableResolution? && SizeOrType(error)
           case _ => false
  }

  predicate AllSafe(results: seq<TestResult>) {
    forall i | 0 <= i < |results| :: Safe(results[i])
  }

  // ---- one test ----

  /** A response that satisfies a ready expectation commits exactly the declared captures. */
  lemma JudgeIsSafe(
    engine: Engine, test: TestCase, expectation: ResolvedExpectation, response: HttpResponse, store: Contents,
    log: History, limit: nat)
    requires Ready(test, Keys(store), limit)
    requires ResolveExpectation(engine.runtime, test.expectation, store) == Ok(expectation)
    ensures var run := Judge(engine, test, expectation, response, store, log);
            && Safe(run.result) && !run.result.status.Skipped?
            && (run.result.status.Passed? ==> Keys(run.store) == Keys(store) + CapturedBy(test))
            && (run.result.status.Failed? ==> run.store == store)
  {
    hide Evaluated;
    hide CaptureOutcome;
    hide RequestClosed;
    hide ExpectationClosed;
    ExpectationShapeKept(engine.runtime, test.expectation, expectation, store);
    var captures := SourceCaptures(test.expectation);
    assert Fresh(captures, []);
    JudgedCaptures(engine.assertions, expectation, response);
    var outcome := CaptureOutcome(engine.assertions, expectation, response);
    if outcome.Ok? && outcome.value.report.IsSuccess() {
      var staged := outcome.value.staged.value;
      SameKeys(staged, captures);
      FirstConflictMeaning(Keys(store), staged);
      KeysAppend(store, staged);
    }
  }

  /** `CaptureAfterSuccess` for both outcomes of the report. */
  lemma JudgedCaptures(config: AssertionConfig, expected: ResolvedExpectation, response: HttpResponse)
    requires ExpectationWellTyped(expected) && Fresh(DeclaredCaptures(expected), [])
    ensures var outcome := CaptureOutcome(config, expected, response);
            && outcome.Ok?
            && (outcome.value.report.IsSuccess() ==>
                  && outcome.value.staged.Some?
                  && |outcome.value.staged.value| == |DeclaredCaptures(expected)|
                  && forall k | 0 <= k < |DeclaredCaptures(expected)| ::
                       outcome.value.staged.value[k].0 == DeclaredCaptures(expected)[k].0)
  {
    if Evaluated(config, expected, response).IsSuccess() {
      CaptureAfterSuccess(config, expected, response);
    }
  }

  lemma SameKeys<V, W>(a: Entries<V>, b: Entries<W>)
    requires |a| == |b| && forall k | 0 <= k < |b| :: a[k].0 == b[k].0
    ensures Keys(a) == Keys(b)
  {
  }

  lemma TestIsSafe(engine: Engine, client: Client, test: TestCase, store: Contents, sent: History, limit: nat)
    requires Ready(test, Keys(store), limit)
    ensures var run := RunTest(engine, client, test, store, sent);
            && Safe(run.result) && !run.result.status.Skipped?
            && (run.result.status.Passed? ==> Keys(run.store) == Keys(store) + CapturedBy(test))
            && (run.result.status.Failed? ==> run.store == store)
  {
    hide ResolveRequest;
    hide ResolveExpectation;
    hide Judge;
    ClosedTestSettles(engine.runtime, test.request, test.expectation, store);
    var request := ResolveRequest(engine.runtime, test.request, store);
    var expectation := ResolveExpectation(engine.runtime, test.expectation, store);
    if request.Ok? && expectation.Ok? {
      var log := sent + [request.value];
      var outcome := client(log);
      if outcome.Reply? {
        JudgeIsSafe(engine, test, expectation.value, outcome.response, store, log, limit);
      }
    }
  }

  // ---- sequences ----

  lemma {:induction false} RunScopeTail(tests: seq<TestCase>, i: nat, scope: set<string>)
    requires i < |tests|
    ensures RunScope(tests, i + 1, scope) == RunScope(tests[1..], i, scope + CapturedBy(tests[0]))
  {
    if i > 0 {
      RunScopeTail(tests, i - 1, scope);
    }
  }

  lemma ReadyTail(tests: seq<TestCase>, scope: set<string>, limit: nat)
    requires tests != [] && AllReady(tests, scope, limit)
    ensures Ready(tests[0], scope, limit)
    ensures AllReady(tests[1..], scope + CapturedBy(tests[0]), limit)
  {
    hide Ready;
    assert RunScope(tests, 0, scope) == scope;
    var rest := tests[1..];
    forall i | 0 <= i < |rest| ensures Ready(rest[i], RunScope(rest, i, scope + CapturedBy(tests[0])), limit) {
      RunScopeTail(tests, i, scope);
      assert rest[i] == tests[i + 1];
    }
  }

  /** Every executed test of a ready sequence starts in the scope it was validated in. */
  lemma {:induction false} SequenceIsSafe(
    engine: Engine, client: Client, tests: seq<TestCase>, store: Contents, sent: History, reason: SkipReason, limit: nat)
    requires AllReady(tests, Keys(store), limit)
    ensures var run := RunTests(engine, client, tests, store, sent, reason);
            && AllSafe(run.results) && (run.last.Passed? || run.last.Failed?)
            && (run.last.Passed? ==> Keys(run.store) == RunScope(tests, |tests|, Keys(store)))
            && |run.starts| <= |tests|
            && forall k | 0 <= k < |run.starts| :: Keys(run.starts[k]) == RunScope(tests, k, Keys(store))
    decreases |tests|
  {
    hide RunTest;
    hide Ready;
    hide CapturedBy;
    if tests != [] {
      ReadyTail(tests, Keys(store), limit);
      TestIsSafe(engine, client, tests[0], store, sent, limit);
      var step := RunTest(engine, client, tests[0], store, sent);
      if step.result.status == Passed {
        SequenceIsSafe(engine, client, tests[1..], step.store, step.sent, reason, limit);
        var run := RunTests(engine, client, tests, store, sent, reason);
        var rest := RunTests(engine, client, tests[1..], step.store, step.sent, reason);
        forall k | 0 <= k < |run.starts| ensures Keys(run.starts[k]) == RunScope(tests, k, Keys(store)) {
          if k > 0 {
            RunScopeTail(tests, k - 1, Keys(store));
            assert run.starts[k] == rest.starts[k - 1];
          }
        }
        RunScopeTail(tests, |tests| - 1, Keys(store));
      }
    }
  }

  // ---- blocks ----

  function TestsOf(block: SuiteBlock): seq<TestCase> {
    if block.Test? then [block.test] else block.tests
  }

  function ResultsOf(result: BlockResult): seq<TestResult> {
    if result.StandaloneResult? then [result.test] else result.tests
  }

  predicate BlockSafe(result: BlockResult) {
    && AllSafe(ResultsOf(result))
    && !StatusOf(result).Aborted?
    && (StatusOf(result).Skipped? ==> forall i | 0 <= i < |ResultsOf(result)| :: ResultsOf(result)[i].status.Skipped?)
  }

  ghost predicate ScopesAre(starts: seq<Contents>, tests: seq<TestCase>, scope: set<string>) {
    |starts| <= |tests| && forall k | 0 <= k < |starts| :: Keys(starts[k]) == RunScope(tests, k, scope)
  }

  lemma BlockIsSafe(engine: Engine, client: Client, block: SuiteBlock, store: Contents, sent: History, limit: nat)
    requires !block.Core? && AllReady(TestsOf(block), Keys(store), limit)
    ensures var run := RunBlock(engine, client, block, store, sent);
            && BlockSafe(run.result) && !StatusOf(run.result).Skipped? && !run.result.CoreResult?
            && ScopesAre(run.starts, TestsOf(block), Keys(store))
  {
    hide RunTests;
    hide RunTest;
    match block
    case Pipeline(_, tests) => SequenceIsSafe(engine, client, tests, store, sent, PipelineFailed, limit);
    case Test(test) =>
      assert Ready(test, RunScope(TestsOf(block), 0, Keys(store)), limit);
      TestIsSafe(engine, client, test, store, sent, limit);
  }

  /** What becomes of one block in the loop over blocks. */
  ghost predicate BlockOutcome(
    block: SuiteBlock, result: BlockResult, starts: seq<Contents>, core: Option<(nat, BlockRun)>, scope: set<string>)
  {
    if block.Core? then
      core.Some? && result == core.value.1.result && starts == core.value.1.starts
    else
      BlockSafe(result) && !result.CoreResult? && !StatusOf(result).Skipped? && ScopesAre(starts, TestsOf(block), scope)
  }

  lemma {:induction false} BlocksAreSafe(
    engine: Engine, client: Client, blocks: seq<SuiteBlock>, i: nat, core: Option<(nat, BlockRun)>, store: Contents,
    sent: History, limit: nat)
    requires i <= |blocks|
    requires forall k | i <= k < |blocks| && blocks[k].Core? :: core.Some? && core.value.0 == k
    requires forall k | i <= k < |blocks| && !blocks[k].Core? :: AllReady(TestsOf(blocks[k]), Keys(store), limit)
    requires core.Some? && i <= core.value.0 < |blocks| ==> blocks[core.value.0].Core?
    ensures var run := RunBlocks(engine, client, blocks, i, core, store, sent);
            && |run.results| == |run.starts| == |blocks| - i
            && forall k | 0 <= k < |run.results| ::
                 BlockOutcome(blocks[i + k], run.results[k], run.starts[k], core, Keys(store))
    decreases |blocks| - i
  {
    hide RunBlock;
    hide BlockOutcome;
    hide AllReady;
    if i < |blocks| {
      var all := RunBlocks(engine, client, blocks, i, core, store, sent);
      var first := if core.Some? && core.value.0 == i then core.value.1 else RunBlock(engine, client, blocks[i], store, sent);
      var later := if core.Some? && core.value.0 == i then sent else first.sent;
      FirstOutcome(engine, client, blocks[i], i, core, store, sent, limit);
      BlocksAreSafe(engine, client, blocks, i + 1, core, store, later, limit);
      var rest := RunBlocks(engine, client, blocks, i + 1, core, store, later);
      assert all.results == [first.result] + rest.results && all.starts == [first.starts] + rest.starts;
      forall k | 0 <= k < |all.results|
        ensures BlockOutcome(blocks[i + k], all.results[k], all.starts[k], core, Keys(store))
      {
        if k > 0 {
          assert all.results[k] == rest.results[k - 1] && all.starts[k] == rest.starts[k - 1];
          assert blocks[i + k] == blocks[i + 1 + (k - 1)];
        }
      }
    }
  }

  lemma FirstOutcome(
    engine: Engine, client: Client, block: SuiteBlock, i: nat, core: Option<(nat, BlockRun)>, store: Contents,
    sent: History, limit: nat)
    requires block.Core? <==> core.Some? && core.value.0 == i
    requires block.Core? || AllReady(TestsOf(block), Keys(store), limit)
    ensures var first := if block.Core? then core.value.1 else RunBlock(engine, client, block, store, sent);
            BlockOutcome(block, first.result, first.starts, core, Keys(store))
  {
    if !block.Core? {
      BlockIsSafe(engine, client, block, store, sent, limit);
    }
  }

  // ---- suites ----

  function AstTests(block: BlockAst): seq<TestAst> {
    if block.StandaloneAst? then [block.test] else block.tests
  }

  /** The scope in which validation checks test `i` of block `b`. */
  function ValidatedScope(ast: SuiteAst, predefined: set<string>, b: nat, i: nat): set<string>
    requires b < |ast.blocks| && i <= |AstTests(ast.blocks[b])|
  {
    ScopeBefore(AstTests(ast.blocks[b]), i, BlockScope(ast, predefined, b))
  }

  /** The scope a block starts with. */
  function BlockScope(ast: SuiteAst, predefined: set<string>, b: nat): set<string>
    requires b < |ast.blocks|
  {
    if ast.blocks[b].CoreAst? then predefined else AfterCore(ast, predefined)
  }

  lemma BlockKeeps(ast: SuiteAst, suite: TestSuite, predefined: set<string>, limit: nat, b: nat)
    requires SuiteOk(ast, predefined, limit) && SuiteFaithful(ast, suite) && b < |ast.blocks|
    ensures var tests := TestsOf(suite.blocks[b]);
            && |tests| == |AstTests(ast.blocks[b])|
            && AllReady(tests, BlockScope(ast, predefined, b), limit)
            && forall i | 0 <= i <= |tests| ::
                 RunScope(tests, i, BlockScope(ast, predefined, b)) == ValidatedScope(ast, predefined, b, i)
  {
    hide TestOk;
    hide TestFaithful;
    hide Ready;
    var tests, c, scope := AstTests(ast.blocks[b]), TestsOf(suite.blocks[b]), BlockScope(ast, predefined, b);
    assert BlockOk(ast.blocks[b], predefined, AfterCore(ast, predefined), limit);
    assert BlockFaithful(ast.blocks[b], suite.blocks[b]);
    assert TestsFaithful(tests, c);
    assert TestsOk(tests, scope, limit) by {
      assert ScopeBefore(tests, 0, scope) == scope;
    }
    TestsKeep(tests, c, |tests|, scope, limit);
    forall i | 0 <= i <= |tests| ensures RunScope(c, i, scope) == ScopeBefore(tests, i, scope) {
      TestsKeep(tests, c, i, scope, limit);
    }
  }

  lemma {:induction false} SameFirstCore(ast: SuiteAst, suite: TestSuite, i: nat)
    requires SuiteFaithful(ast, suite) && i <= |ast.blocks|
    ensures FirstCoreIndex(suite.blocks, i) == FirstCore(ast.blocks, i)
    decreases |ast.blocks| - i
  {
    if i < |ast.blocks| {
      assert BlockFaithful(ast.blocks[i], suite.blocks[i]);
      SameFirstCore(ast, suite, i + 1);
    }
  }

  lemma {:induction false} OneCoreCounted(blocks: seq<SuiteBlock>)
    requires forall i, j | 0 <= i < j < |blocks| :: !(blocks[i].Core? && blocks[j].Core?)
    ensures CoreCount(blocks) <= 1
    ensures (forall i | 0 <= i < |blocks| :: !blocks[i].Core?) ==> CoreCount(blocks) == 0
    decreases |blocks|
  {
    if blocks != [] {
      var rest := blocks[1..];
      assert forall i | 0 <= i < |rest| :: rest[i] == blocks[i + 1];
      OneCoreCounted(rest);
    }
  }

  /** Shape checks at run time only repeat what validation and parsing have established. */
  lemma PreflightPasses(ast: SuiteAst, suite: TestSuite, predefined: set<string>, limit: nat)
    requires SuiteOk(ast, predefined, limit) && SuiteFaithful(ast, suite) && ast.blocks != []
    ensures Preflight(suite).None?
  {
    forall i | 0 <= i < |suite.blocks|
      ensures suite.blocks[i].Core? <==> ast.blocks[i].CoreAst?
      ensures !(suite.blocks[i].Pipeline? && suite.blocks[i].tests == [])
    {
      assert BlockFaithful(ast.blocks[i], suite.blocks[i]);
      assert BlockOk(ast.blocks[i], predefined, AfterCore(ast, predefined), limit);
    }
    OneCoreCounted(suite.blocks);
  }

  /** What the core phase leaves behind in a checked suite. */
  lemma CoreIsSafe(
    engine: Engine, client: Client, ast: SuiteAst, suite: TestSuite, limit: nat, initial: Contents)
    requires SuiteOk(ast, Keys(initial), limit) && SuiteFaithful(ast, suite)
    ensures var core := RunCore(engine, client, suite, initial);
            && (core.run.Some? ==>
                  var (index, run) := core.run.value;
                  && index < |suite.blocks| && suite.blocks[index].Core?
                  && run.result.CoreResult? && BlockSafe(run.result)
                  && (run.result.status.Passed? || run.result.status.Failed?)
                  && ScopesAre(run.starts, TestsOf(suite.blocks[index]), Keys(initial)))
            && ((core.run.Some? ==> core.run.value.1.result.status.Passed?) ==>
                  Keys(core.store) == AfterCore(ast, Keys(initial)))
  {
    hide RunTests;
    hide AllReady;
    SameFirstCore(ast, suite, 0);
    var first := FirstCoreIndex(suite.blocks, 0);
    if first.Some? {
      assert BlockFaithful(ast.blocks[first.value], suite.blocks[first.value]);
      BlockKeeps(ast, suite, Keys(initial), limit, first.value);
      SequenceIsSafe(engine, client, suite.blocks[first.value].tests, initial, [], CoreFailed, limit);
    }
  }

  /** `core_failed` and the exit codes of the command line. */
  predicate CoreHasFailed(result: SuiteResult) {
    exists i | 0 <= i < |result.blocks| ::
      result.blocks[i].CoreResult? && (result.blocks[i].status.Failed? || result.blocks[i].status.Aborted?)
  }

  const TEST_FAILED := 1
  const CORE_ABORTED := 2
  const INTERNAL_ERROR := 5

  function ExitCode(result: SuiteResult): nat {
    match result.status
    case Passed => 0
    case Failed => TEST_FAILED
    case Aborted => if CoreHasFailed(result) then CORE_ABORTED else INTERNAL_ERROR
    case Skipped => INTERNAL_ERROR
  }

  ghost predicate ScopesAgree(ast: SuiteAst, predefined: set<string>, b: nat, starts: seq<Contents>)
    requires b < |ast.blocks|
  {
    && |starts| <= |AstTests(ast.blocks[b])|
    && forall i | 0 <= i < |starts| :: Keys(starts[i]) == ValidatedScope(ast, predefined, b, i)
  }

  lemma ScopesCarryOver(
    ast: SuiteAst, suite: TestSuite, predefined: set<string>, limit: nat, b: nat, starts: seq<Contents>)
    requires SuiteOk(ast, predefined, limit) && SuiteFaithful(ast, suite) && b < |ast.blocks|
    requires ScopesAre(starts, TestsOf(suite.blocks[b]), BlockScope(ast, predefined, b))
    ensures ScopesAgree(ast, predefined, b, starts)
  {
    BlockKeeps(ast, suite, predefined, limit, b);
  }

  /** The run of a checked suite whose core did not pass. */
  lemma FailedCoreRun(engine: Engine, client: Client, ast: SuiteAst, suite: TestSuite, limit: nat, initial: Contents)
    requires SuiteOk(ast, Keys(initial), limit) && SuiteFaithful(ast, suite) && Preflight(suite).None?
    requires var core := RunCore(engine, client, suite, initial);
             core.run.Some? && core.run.value.1.result.status != Passed
    ensures var run := RunSuite(engine, client, suite, initial);
            && |run.result.blocks| == |run.starts| == |ast.blocks|
            && (forall b | 0 <= b < |ast.blocks| ::
                  && AllSafe(ResultsOf(run.result.blocks[b]))
                  && ScopesAgree(ast, Keys(initial), b, run.starts[b]))
            && run.result.status.Aborted? && CoreHasFailed(run.result)
  {
    hide RunCore;
    hide TestsOk;
    hide SuiteOk;
    hide TestFaithful;
    var core := RunCore(engine, client, suite, initial);
    CoreIsSafe(engine, client, ast, suite, limit, initial);
    var run := RunSuite(engine, client, suite, initial);
    var index := core.run.value.0;
    assert BlockFaithful(ast.blocks[index], suite.blocks[index]);
    ScopesCarryOver(ast, suite, Keys(initial), limit, index, core.run.value.1.starts);
    assert run.result.blocks[index] == core.run.value.1.result;
    forall b | 0 <= b < |ast.blocks|
      ensures AllSafe(ResultsOf(run.result.blocks[b])) && ScopesAgree(ast, Keys(initial), b, run.starts[b])
    {
      if b != index {
        assert run.result.blocks[b] == SkippedBlock(suite.blocks[b], CoreFailed);
        assert run.starts[b] == [];
      }
    }
  }

  /** The run of a checked suite without core, or whose core passed. */
  lemma CompleteRun(engine: Engine, client: Client, ast: SuiteAst, suite: TestSuite, limit: nat, initial: Contents)
    requires SuiteOk(ast, Keys(initial), limit) && SuiteFaithful(ast, suite) && Preflight(suite).None?
    requires var core := RunCore(engine, client, suite, initial);
             core.run.Some? ==> core.run.value.1.result.status == Passed
    ensures var run := RunSuite(engine, client, suite, initial);
            && |run.result.blocks| == |run.starts| == |ast.blocks|
            && (forall b | 0 <= b < |ast.blocks| ::
                  && AllSafe(ResultsOf(run.result.blocks[b]))
                  && ScopesAgree(ast, Keys(initial), b, run.starts[b]))
            && (run.result.status.Passed? || run.result.status.Failed?) && !CoreHasFailed(run.result)
  {
    hide RunCore;
    hide RunBlocks;
    hide TestsOk;
    hide SuiteOk;
    hide TestFaithful;
    hide AllReady;
    var core := RunCore(engine, client, suite, initial);
    CoreIsSafe(engine, client, ast, suite, limit, initial);
    CoresAreFirst(suite);
    forall b | 0 <= b < |ast.blocks|
      ensures suite.blocks[b].Core? <==> ast.blocks[b].CoreAst?
      ensures AllReady(TestsOf(suite.blocks[b]), BlockScope(ast, Keys(initial), b), limit)
    {
      assert BlockFaithful(ast.blocks[b], suite.blocks[b]);
      BlockKeeps(ast, suite, Keys(initial), limit, b);
    }
    BlocksAreSafe(engine, client, suite.blocks, 0, core.run, core.store, core.sent, limit);
    var run := RunBlocks(engine, client, suite.blocks, 0, core.run, core.store, core.sent);
    forall b | 0 <= b < |ast.blocks|
      ensures AllSafe(ResultsOf(run.results[b])) && ScopesAgree(ast, Keys(initial), b, run.starts[b])
      ensures run.results[b].CoreResult? ==> run.results[b].status == Passed
    {
      assert BlockOutcome(suite.blocks[0 + b], run.results[b], run.starts[b], core.run, Keys(core.store));
      ScopesCarryOver(ast, suite, Keys(initial), limit, b, run.starts[b]);
    }
  }

  /**
   * The main theorem. A suite validated against the names of the initial store runs, for every client, without a single
   * aborted test and without any error about names, captures or internal assumptions; every executed test starts in
   * exactly the scope it was validated in; the suite is aborted only because core failed, and the exit code is
   * 0, 1 or 2. (Blocks are never empty in a parsed suite.)
   */
  lemma CheckedSuitesDoNotGoWrong(engine: Engine, client: Client, ast: SuiteAst, limit: nat, initial: Contents)
    requires ast.blocks != [] && SuiteErrors(ast, Keys(initial), limit) == []
    ensures SuiteFrom(ast).Some? && Preflight(SuiteFrom(ast).value).None?
    ensures var run := RunSuite(engine, client, SuiteFrom(ast).value, initial);
            && |run.result.blocks| == |run.starts| == |ast.blocks|
            && (forall b | 0 <= b < |ast.blocks| ::
                  && AllSafe(ResultsOf(run.result.blocks[b]))
                  && ScopesAgree(ast, Keys(initial), b, run.starts[b]))
            && (run.result.status.Aborted? <==> CoreHasFailed(run.result))
            && ExitCode(run.result)
               == (match run.result.status case Passed => 0 case Failed => TEST_FAILED case _ => CORE_ABORTED)
  {
    hide RunTests;
    hide RunSuite;
    hide SuiteOk;
    hide SuiteFaithful;
    hide SuiteErrors;
    hide Preflight;
    ConversionIsTotalAndLossless(ast, Keys(initial), limit);
    ValidationExact.ValidationIsExact(ast, Keys(initial), limit);
    var suite := SuiteFrom(ast).value;
    PreflightPasses(ast, suite, Keys(initial), limit);
    var core := RunCore(engine, client, suite, initial);
    if core.run.Some? && core.run.value.1.result.status != Passed {
      FailedCoreRun(engine, client, ast, suite, limit, initial);
    } else {
      CompleteRun(engine, client, ast, suite, limit, initial);
    }
  }
}
