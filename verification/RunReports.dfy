/**
 * From a run to its JUnit document, crates/rettp-reporter/src/model.rs: the report shows every test of the run with its
 * outcome, so the document is free of failures and errors exactly if the run has passed.
 */
module RunReports {
  import opened Wrappers
  import opened AssertionSpec
  import opened Domain
  import opened Variables
  import opened RuntimeErrors
  import opened Execution
  import opened Junit
  import opened JunitExact
  import opened CheckedRuns
  import RunShape

  /** Wording, redaction and clocks, which are left open. */
  datatype Wording = Wording(
    path: Failure -> string,
    expected: Failure -> Option<string>,
    actual: Failure -> Option<string>,
    failureMessage: FailureKind -> string,
    errorMessage: Execution.ErrorKind -> string,
    suiteMs: nat,
    blockMs: nat -> nat,
    testMs: (nat, nat) -> nat)

  // ---- the report of a run ----

  function FailureReport(w: Wording, failure: Failure): ReportFailure {
    ReportFailure(w.path(failure), failure.kind, w.failureMessage(failure.kind), w.expected(failure), w.actual(failure))
  }

  function FailureReports(w: Wording, failures: seq<Failure>): (r: seq<ReportFailure>)
    ensures |r| == |failures|
  {
    seq(|failures|, i requires 0 <= i < |failures| => FailureReport(w, failures[i]))
  }

  function ErrorReport(w: Wording, error: Option<ErrorInfo>): Option<ReportError> {
    if error.None? then None else Some(ReportError(error.value.kind, w.errorMessage(error.value.kind)))
  }

  function TestReport(w: Wording, block: nat, i: nat, test: TestResult): ReportTest {
    ReportTest(test.name, test.status, w.testMs(block, i), FailureReports(w, test.failures), ErrorReport(w, test.error))
  }

  function TestReports(w: Wording, block: nat, tests: seq<TestResult>): (r: seq<ReportTest>)
    ensures |r| == |tests| && forall i | 0 <= i < |r| :: r[i] == TestReport(w, block, i, tests[i])
  {
    seq(|tests|, i requires 0 <= i < |tests| => TestReport(w, block, i, tests[i]))
  }

  function BlockReport(w: Wording, block: nat, result: BlockResult): ReportBlock {
    match result
    case CoreResult(_, tests) => ReportBlock(CoreKind, None, w.blockMs(block), TestReports(w, block, tests))
    case PipelineResult(name, _, tests) =>
      ReportBlock(PipelineKind, Some(name), w.blockMs(block), TestReports(w, block, tests))
    case StandaloneResult(test) =>
      ReportBlock(TestKind, Some(test.name), w.blockMs(block), TestReports(w, block, [test]))
  }

  function BlockReports(w: Wording, blocks: seq<BlockResult>): (r: seq<ReportBlock>)
    ensures |r| == |blocks| && forall i | 0 <= i < |r| :: r[i] == BlockReport(w, i, blocks[i])
  {
    seq(|blocks|, i requires 0 <= i < |blocks| => BlockReport(w, i, blocks[i]))
  }

  /** `RunReport::from_suite_result`. */
  function ReportOf(w: Wording, source: string, result: SuiteResult): RunReport {
    RunReport(source, result.name, w.suiteMs, BlockReports(w, result.blocks), ErrorReport(w, result.error))
  }

  // ---- what a run is counted as ----

  /** A failed test counts as a failure if its assertions failed, and as an error if it could not be carried out. */
  function TallyTest(test: TestResult): Counts {
    match test.status
    case Passed => Counts(1, 0, 0, 0)
    case Skipped => Counts(1, 0, 0, 1)
    case Failed => if test.error.None? && test.failures != [] then Counts(1, 1, 0, 0) else Counts(1, 0, 1, 0)
    case Aborted => Counts(1, 0, 1, 0)
  }

  function TallyTests(tests: seq<TestResult>): Counts {
    if tests == [] then NO_COUNTS else Sum(TallyTests(tests[..|tests| - 1]), TallyTest(tests[|tests| - 1]))
  }

  function TallyBlocks(blocks: seq<BlockResult>): Counts {
    if blocks == [] then NO_COUNTS
    else Sum(TallyBlocks(blocks[..|blocks| - 1]), TallyTests(ResultsOf(blocks[|blocks| - 1])))
  }

  /** A suite-level error is counted as one more test, which ends in an error. */
  function Tally(result: SuiteResult): Counts {
    Sum(TallyBlocks(result.blocks), if result.error.None? then NO_COUNTS else Counts(1, 0, 1, 0))
  }

  lemma {:induction false} TestsTallied(w: Wording, block: nat, tests: seq<TestResult>)
    ensures ExactTests(TestReports(w, block, tests)) == TallyTests(tests)
  {
    hide TestReport;
    if tests != [] {
      var last := |tests| - 1;
      TestsTallied(w, block, tests[..last]);
      assert TestReports(w, block, tests)[..last] == TestReports(w, block, tests[..last]);
      TestTallied(w, block, last, tests[last]);
    }
  }

  lemma TestTallied(w: Wording, block: nat, i: nat, test: TestResult)
    ensures TestCounts(TestReport(w, block, i, test)) == TallyTest(test)
  {
    assert |FailureReports(w, test.failures)| == |test.failures|;
  }

  lemma {:induction false} BlocksTallied(w: Wording, blocks: seq<BlockResult>)
    ensures ExactBlocks(BlockReports(w, blocks)) == TallyBlocks(blocks)
  {
    hide TestReports;
    hide TallyTests;
    hide ExactTests;
    if blocks != [] {
      var last := |blocks| - 1;
      BlocksTallied(w, blocks[..last]);
      assert BlockReports(w, blocks)[..last] == BlockReports(w, blocks[..last]);
      TestsTallied(w, last, ResultsOf(blocks[last]));
    }
  }

  /** The elements of the rendered document are the tests of the run, by outcome. */
  lemma DocumentTalliesRun(w: Wording, source: string, result: SuiteResult)
    ensures ElementCounts(LinesText(ReportLines(ReportOf(w, source, result)))) == Tally(result)
  {
    hide ElementCounts;
    hide LinesText;
    hide ReportLines;
    hide ExactBlocks;
    hide TallyBlocks;
    hide BlockReports;
    DocumentElements(ReportOf(w, source, result));
    BlocksTallied(w, result.blocks);
  }

  // ---- passed runs and clean documents ----

  predicate Broken(test: TestResult) {
    test.status.Failed? || test.status.Aborted?
  }

  predicate NoneBroken(tests: seq<TestResult>) {
    forall k | 0 <= k < |tests| :: !Broken(tests[k])
  }

  lemma {:induction false} TestsTally(tests: seq<TestResult>)
    ensures TallyTests(tests).tests == |tests|
    ensures TallyTests(tests).failures + TallyTests(tests).errors == 0 <==> NoneBroken(tests)
    ensures RunShape.AllPassed(tests) ==> TallyTests(tests).skipped == 0
  {
    hide NoneBroken;
    hide RunShape.AllPassed;
    if tests != [] {
      TestsTally(tests[..|tests| - 1]);
      LastTest(tests);
    } else {
      NoTests();
    }
  }

  lemma NoTests()
    ensures NoneBroken([]) && RunShape.AllPassed([])
  {
  }

  lemma LastTest(tests: seq<TestResult>)
    requires tests != []
    ensures var front, last := tests[..|tests| - 1], tests[|tests| - 1];
            && (NoneBroken(tests) <==> NoneBroken(front) && !Broken(last))
            && (RunShape.AllPassed(tests) <==> RunShape.AllPassed(front) && last.status.Passed?)
  {
    var last := |tests| - 1;
    assert forall k | 0 <= k < last :: tests[..last][k] == tests[k];
  }

  function TestTotal(blocks: seq<SuiteBlock>): nat {
    if blocks == [] then 0 else TestTotal(blocks[..|blocks| - 1]) + |TestsOf(blocks[|blocks| - 1])|
  }

  /** The results have a place for every test. */
  predicate SameSize(blocks: seq<SuiteBlock>, results: seq<BlockResult>) {
    |results| == |blocks| && forall k | 0 <= k < |blocks| :: |ResultsOf(results[k])| == |TestsOf(blocks[k])|
  }

  predicate AllBlocksPassed(results: seq<BlockResult>) {
    forall k | 0 <= k < |results| :: RunShape.AllPassed(ResultsOf(results[k]))
  }

  predicate NoBlockBroken(results: seq<BlockResult>) {
    forall k | 0 <= k < |results| :: NoneBroken(ResultsOf(results[k]))
  }

  lemma LastBlock(blocks: seq<SuiteBlock>, results: seq<BlockResult>)
    requires SameSize(blocks, results) && blocks != []
    ensures var last := |blocks| - 1;
            && SameSize(blocks[..last], results[..last]) && |ResultsOf(results[last])| == |TestsOf(blocks[last])|
            && (NoBlockBroken(results) <==> NoBlockBroken(results[..last]) && NoneBroken(ResultsOf(results[last])))
            && (AllBlocksPassed(results)
                <==> AllBlocksPassed(results[..last]) && RunShape.AllPassed(ResultsOf(results[last])))
  {
    hide NoneBroken;
    hide RunShape.AllPassed;
    var last := |blocks| - 1;
    assert forall k | 0 <= k < last :: results[..last][k] == results[k];
  }

  lemma {:induction false} BlocksTally(blocks: seq<SuiteBlock>, results: seq<BlockResult>)
    requires SameSize(blocks, results)
    ensures var tally := TallyBlocks(results);
            && tally.tests == TestTotal(blocks)
            && (tally.failures + tally.errors == 0 <==> NoBlockBroken(results))
            && (AllBlocksPassed(results) ==> tally.skipped == 0)
  {
    hide TallyTests;
    hide NoneBroken;
    hide RunShape.AllPassed;
    if blocks != [] {
      hide SameSize;
      hide NoBlockBroken;
      hide AllBlocksPassed;
      var last := |blocks| - 1;
      LastBlock(blocks, results);
      BlocksTally(blocks[..last], results[..last]);
      TestsTally(ResultsOf(results[last]));
    }
  }

  /** What stopped a sequence is a failed or aborted test, not a skipped one. */
  lemma StoppedByBroken(tests: seq<TestCase>, results: seq<TestResult>, executed: nat, reason: SkipReason)
    requires RunShape.Stops(tests, results, executed, reason)
    ensures |results| == |tests|
    ensures NoneBroken(results) <==> RunShape.AllPassed(results)
  {
    if NoneBroken(results) && executed > 0 {
      assert results[executed - 1].status.Passed?;
    }
  }

  lemma BlockBroken(block: SuiteBlock, result: BlockResult, executed: nat)
    requires RunShape.BlockShape(block, result, executed)
    ensures |ResultsOf(result)| == |TestsOf(block)|
    ensures NoneBroken(ResultsOf(result)) <==> RunShape.AllPassed(ResultsOf(result))
  {
    hide RunShape.Stops;
    hide NoneBroken;
    hide RunShape.AllPassed;
    match block
    case Core(tests) => StoppedByBroken(tests, result.tests, executed, CoreFailed);
    case Pipeline(_, tests) => StoppedByBroken(tests, result.tests, executed, PipelineFailed);
    case Test(test) => StoppedByBroken([test], [result.test], executed, PipelineFailed);
  }

  /** The three ways a run can end: rejected, stopped by core, or complete. */
  lemma RunOutline(engine: Engine, client: Client, suite: TestSuite, initial: Contents)
    ensures var result := RunSuite(engine, client, suite, initial).result;
            && SameSize(suite.blocks, result.blocks)
            && (result.status.Passed? <==> result.error.None? && NoBlockBroken(result.blocks))
            && (result.status.Passed? ==> AllBlocksPassed(result.blocks))
  {
    hide RunSuite;
    hide AllBlocksPassed;
    hide NoBlockBroken;
    if Preflight(suite).Some? {
      RejectedOutline(engine, client, suite, initial);
    } else if !RunShape.CorePassed(RunCore(engine, client, suite, initial)) {
      StoppedOutline(engine, client, suite, initial);
    } else {
      CompleteOutline(engine, client, suite, initial);
    }
  }

  lemma RejectedOutline(engine: Engine, client: Client, suite: TestSuite, initial: Contents)
    requires Preflight(suite).Some?
    ensures var result := RunSuite(engine, client, suite, initial).result;
            SameSize(suite.blocks, result.blocks) && result.error.Some? && !result.status.Passed?
  {
    hide RunCore;
    hide RunBlocks;
    var result := RunSuite(engine, client, suite, initial).result;
    var reason := Preflight(suite).value;
    assert forall k | 0 <= k < |suite.blocks| :: result.blocks[k] == SkippedBlock(suite.blocks[k], reason);
  }

  lemma StoppedOutline(engine: Engine, client: Client, suite: TestSuite, initial: Contents)
    requires Preflight(suite).None? && !RunShape.CorePassed(RunCore(engine, client, suite, initial))
    ensures var result := RunSuite(engine, client, suite, initial).result;
            SameSize(suite.blocks, result.blocks) && result.error.Some? && !result.status.Passed?
  {
    hide RunCore;
    hide RunBlocks;
    hide Preflight;
    hide RunShape.BlockShape;
    RunShape.CoreFailureStopsTheSuite(engine, client, suite, initial);
    var result := RunSuite(engine, client, suite, initial).result;
    var (index, run) := RunCore(engine, client, suite, initial).run.value;
    BlockBroken(suite.blocks[index], result.blocks[index], |run.starts|);
    forall k | 0 <= k < |suite.blocks| ensures |ResultsOf(result.blocks[k])| == |TestsOf(suite.blocks[k])| {
      assert k != index ==> result.blocks[k] == SkippedBlock(suite.blocks[k], CoreFailed);
    }
  }

  lemma CompleteOutline(engine: Engine, client: Client, suite: TestSuite, initial: Contents)
    requires Preflight(suite).None? && RunShape.CorePassed(RunCore(engine, client, suite, initial))
    ensures var result := RunSuite(engine, client, suite, initial).result;
            && SameSize(suite.blocks, result.blocks) && result.error.None?
            && (result.status.Passed? <==> AllBlocksPassed(result.blocks))
            && (NoBlockBroken(result.blocks) <==> AllBlocksPassed(result.blocks))
  {
    hide RunCore;
    hide RunSuite;
    hide Preflight;
    hide RunShape.CorePassed;
    hide RunShape.BlockShape;
    hide RunShape.AllPassed;
    hide NoneBroken;
    RunShape.PassedMeansAllPassed(engine, client, suite, initial);
    CompleteSize(engine, client, suite, initial);
    var core := RunCore(engine, client, suite, initial);
    var run := RunSuite(engine, client, suite, initial);
    forall k | 0 <= k < |suite.blocks|
      ensures |ResultsOf(run.result.blocks[k])| == |TestsOf(suite.blocks[k])|
      ensures NoneBroken(ResultsOf(run.result.blocks[k])) <==> RunShape.AllPassed(ResultsOf(run.result.blocks[k]))
    {
      CompleteBlock(engine, client, suite, initial, k);
      BlockBroken(suite.blocks[k], run.result.blocks[k],
                  if suite.blocks[k].Core? then |core.run.value.1.starts| else |run.starts[k]|);
    }
  }

  lemma CompleteSize(engine: Engine, client: Client, suite: TestSuite, initial: Contents)
    requires Preflight(suite).None? && RunShape.CorePassed(RunCore(engine, client, suite, initial))
    ensures var result := RunSuite(engine, client, suite, initial).result;
            |result.blocks| == |suite.blocks| && result.error.None?
  {
    hide RunCore;
    hide RunBlocks;
    hide Preflight;
    RunShape.CompletedRunsAreInOrder(engine, client, suite, initial);
  }

  lemma CompleteBlock(engine: Engine, client: Client, suite: TestSuite, initial: Contents, k: nat)
    requires Preflight(suite).None? && RunShape.CorePassed(RunCore(engine, client, suite, initial))
    requires k < |suite.blocks|
    ensures var core := RunCore(engine, client, suite, initial);
            var run := RunSuite(engine, client, suite, initial);
            && k < |run.result.blocks| == |run.starts|
            && (suite.blocks[k].Core? ==> core.run.Some?)
            && RunShape.BlockShape(suite.blocks[k], run.result.blocks[k],
                                   if suite.blocks[k].Core? then |core.run.value.1.starts| else |run.starts[k]|)
  {
    hide RunCore;
    hide RunBlocks;
    hide RunSuite;
    hide Preflight;
    hide RunShape.BlockShape;
    hide RunShape.SentFor;
    RunShape.CompletedRunsAreInOrder(engine, client, suite, initial);
    var core := RunCore(engine, client, suite, initial);
    var run := RunSuite(engine, client, suite, initial);
    var ends := RunShape.LogEnds(engine, client, suite.blocks, 0, core.run, core.store, core.sent);
    assert RunShape.BlockSent(engine, run.sent, RunShape.From(ends, k, core.sent), ends[k], suite.blocks[k],
                              run.result.blocks[k], run.starts[k], core.run);
  }

  /**
   * The document of any run has one test case for every test of the suite, and one more for a suite-level error; it is
   * free of failures and errors iff the run has passed, and then nothing was skipped either.
   */
  lemma CleanDocumentMeansPassed(
    engine: Engine, client: Client, suite: TestSuite, initial: Contents, w: Wording, source: string)
    ensures var result := RunSuite(engine, client, suite, initial).result;
            var counts := ElementCounts(LinesText(ReportLines(ReportOf(w, source, result))));
            && counts.tests == TestTotal(suite.blocks) + (if result.error.Some? then 1 else 0)
            && (counts.failures == 0 && counts.errors == 0 <==> result.status.Passed?)
            && (result.status.Passed? ==> counts.skipped == 0)
  {
    hide RunSuite;
    hide ElementCounts;
    hide LinesText;
    hide ReportLines;
    hide ReportOf;
    hide TallyBlocks;
    hide SameSize;
    hide NoneBroken;
    hide RunShape.AllPassed;
    var result := RunSuite(engine, client, suite, initial).result;
    RunOutline(engine, client, suite, initial);
    BlocksTally(suite.blocks, result.blocks);
    DocumentTalliesRun(w, source, result);
  }
}
