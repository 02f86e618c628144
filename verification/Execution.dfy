/**
 * Sequential execution of suites, crates/rettp-application/src/execution.rs. Clocks are left out, and an error keeps its
 * cause instead of its wording. The HTTP client is any function of the requests sent so far.
 */
module Execution {
  import opened Wrappers
  import opened IndexMap
  import opened Response
  import opened Domain
  import opened AssertionSpec
  import opened AssertionEngine
  import opened Variables
  import opened RuntimeErrors
  import opened Expectation
  import opened Interpolation
  import opened Resolver
  import opened Capture

  datatype HttpError = InvalidBaseUrl | InvalidRequest | Connection | Timeout | InvalidResponse | BodyTooLarge

  datatype HttpOutcome = Reply(response: HttpResponse) | Refused(error: HttpError)

  /** All requests sent so far, the last of which is to be answered. */
  type History = seq<ResolvedHttpRequest>

  type Client = History -> HttpOutcome

  datatype ErrorKind =
    | InvalidRequestError
    | ConnectionError
    | TimeoutError
    | InvalidResponseError
    | VariableResolution
    | DependencyFailed
    | Internal

  datatype SkipReason = CoreFailed | PipelineFailed | EmptySuite | SeveralCores | EmptyPipeline

  datatype Cause =
    | RuntimeCause(error: RuntimeError)
    | ClientCause(refusal: HttpError)
    | ReasonCause(reason: SkipReason)
    | NothingStaged

  datatype ErrorInfo = ErrorInfo(kind: ErrorKind, cause: Cause)

  datatype Status = Passed | Failed | Skipped | Aborted

  datatype TestResult = TestResult(name: string, status: Status, failures: seq<Failure>, error: Option<ErrorInfo>)

  datatype BlockResult =
    | CoreResult(status: Status, tests: seq<TestResult>)
    | PipelineResult(name: string, status: Status, tests: seq<TestResult>)
    | StandaloneResult(test: TestResult)

  datatype SuiteResult = SuiteResult(
    name: Option<string>, status: Status, blocks: seq<BlockResult>, error: Option<ErrorInfo>)

  datatype Engine = Engine(runtime: RuntimeConfig, assertions: AssertionConfig)

  function HttpErrorInfo(error: HttpError): ErrorInfo {
    var kind := match error
      case InvalidBaseUrl => Internal
      case InvalidRequest => InvalidRequestError
      case Connection => ConnectionError
      case Timeout => TimeoutError
      case InvalidResponse => InvalidResponseError
      case BodyTooLarge => InvalidResponseError;
    ErrorInfo(kind, ClientCause(error))
  }

  function FailedWithError(test: TestCase, error: RuntimeError): TestResult {
    TestResult(test.name, Failed, [], Some(ErrorInfo(VariableResolution, RuntimeCause(error))))
  }

  function AbortedCapture(test: TestCase, error: RuntimeError): TestResult {
    TestResult(test.name, Aborted, [], Some(ErrorInfo(Internal, RuntimeCause(error))))
  }

  function SkippedTest(name: string, reason: SkipReason): TestResult {
    TestResult(name, Skipped, [], Some(ErrorInfo(DependencyFailed, ReasonCause(reason))))
  }

  function SkippedTests(tests: seq<TestCase>, reason: SkipReason): (r: seq<TestResult>)
    ensures |r| == |tests| && forall i | 0 <= i < |r| :: r[i] == SkippedTest(tests[i].name, reason)
  {
    seq(|tests|, i requires 0 <= i < |tests| => SkippedTest(tests[i].name, reason))
  }

  function SkippedBlock(block: SuiteBlock, reason: SkipReason): BlockResult {
    match block
    case Core(tests) => CoreResult(Skipped, SkippedTests(tests, reason))
    case Pipeline(name, tests) => PipelineResult(name, Skipped, SkippedTests(tests, reason))
    case Test(test) => StandaloneResult(SkippedTest(test.name, reason))
  }

  function SkippedBlocks(blocks: seq<SuiteBlock>, reason: SkipReason): (r: seq<BlockResult>)
    ensures |r| == |blocks| && forall i | 0 <= i < |r| :: r[i] == SkippedBlock(blocks[i], reason)
  {
    seq(|blocks|, i requires 0 <= i < |blocks| => SkippedBlock(blocks[i], reason))
  }

  // ---- one test ----

  /** A result together with the scope and the history after it. */
  datatype TestRun = TestRun(result: TestResult, store: Contents, sent: History)

  function RunTest(engine: Engine, client: Client, test: TestCase, store: Contents, sent: History): TestRun {
    match ResolveRequest(engine.runtime, test.request, store)
    case Err(error) => TestRun(FailedWithError(test, error), store, sent)
    case Ok(request) =>
      match ResolveExpectation(engine.runtime, test.expectation, store)
      case Err(error) => TestRun(FailedWithError(test, error), store, sent)
      case Ok(expectation) =>
        var log := sent + [request];
        match client(log)
        case Refused(error) => TestRun(TestResult(test.name, Failed, [], Some(HttpErrorInfo(error))), store, log)
        case Reply(response) => Judge(engine, test, expectation, response, store, log)
  }

  /** From the response to the committed captures. */
  function Judge(
    engine: Engine, test: TestCase, expectation: ResolvedExpectation, response: HttpResponse, store: Contents,
    log: History): TestRun
  {
    match CaptureOutcome(engine.assertions, expectation, response)
    case Err(error) => TestRun(AbortedCapture(test, error), store, log)
    case Ok(evaluation) =>
      if !evaluation.report.IsSuccess() then
        TestRun(TestResult(test.name, Failed, evaluation.report.failures, None), store, log)
      else if evaluation.staged.None? then
        TestRun(TestResult(test.name, Aborted, [], Some(ErrorInfo(Internal, NothingStaged))), store, log)
      else
        match FirstConflict(Keys(store), evaluation.staged.value)
        case Some(name) => TestRun(AbortedCapture(test, DuplicateVariable(name)), store, log)
        case None =>
          TestRun(TestResult(test.name, Passed, [], None), store + evaluation.staged.value, log)
  }

  method ExecuteTest(engine: Engine, test: TestCase, variables: VariableStore, client: Client, sent: History)
    returns (result: TestResult, log: History)
    modifies variables
    ensures TestRun(result, variables.Scope(), log) == RunTest(engine, client, test, old(variables.Scope()), sent)
  {
    log := sent;
    var request := ResolveRequest(engine.runtime, test.request, variables.Scope());
    if request.Err? {
      return FailedWithError(test, request.error), log;
    }
    var expectation := ResolveExpectation(engine.runtime, test.expectation, variables.Scope());
    if expectation.Err? {
      return FailedWithError(test, expectation.error), log;
    }
    log := log + [request.value];
    var outcome := client(log);
    if outcome.Refused? {
      return TestResult(test.name, Failed, [], Some(HttpErrorInfo(outcome.error))), log;
    }
    var evaluation := EvaluateCaptures(engine.assertions, expectation.value, outcome.response);
    if evaluation.Err? {
      return AbortedCapture(test, evaluation.error), log;
    }
    if !evaluation.value.report.IsSuccess() {
      return TestResult(test.name, Failed, evaluation.value.report.failures, None), log;
    }
    if evaluation.value.pending.None? {
      return TestResult(test.name, Aborted, [], Some(ErrorInfo(Internal, NothingStaged))), log;
    }
    var committed := variables.Commit(evaluation.value.pending.value);
    if committed.Err? {
      return AbortedCapture(test, committed.error), log;
    }
    return TestResult(test.name, Passed, [], None), log;
  }

  // ---- sequences of tests ----

  /** The results of a sequence, its last state, and the scope every executed test started in. */
  datatype SequenceRun = SequenceRun(
    results: seq<TestResult>, last: Status, store: Contents, sent: History, starts: seq<Contents>)

  /** Tests in order until the first that does not pass; the rest is skipped. */
  function RunTests(
    engine: Engine, client: Client, tests: seq<TestCase>, store: Contents, sent: History, reason: SkipReason)
    : SequenceRun
    decreases |tests|
  {
    if tests == [] then SequenceRun([], Passed, store, sent, [])
    else
      var step := RunTest(engine, client, tests[0], store, sent);
      if step.result.status != Passed then
        SequenceRun([step.result] + SkippedTests(tests[1..], reason), step.result.status, step.store, step.sent, [store])
      else
        var rest := RunTests(engine, client, tests[1..], step.store, step.sent, reason);
        rest.(results := [step.result] + rest.results, starts := [store] + rest.starts)
  }

  function CoreStatus(last: Status): Status {
    if last == Passed || last == Aborted then last else Failed
  }

  function PipelineStatus(last: Status): Status {
    if last == Passed then Passed else Failed
  }

  lemma PrefixResult(done: seq<TestResult>, first: TestResult, rest: seq<TestResult>)
    ensures done + ([first] + rest) == done + [first] + rest
  {
  }

  method ExecuteCore(engine: Engine, core: SuiteBlock, variables: VariableStore, client: Client, sent: History)
    returns (result: BlockResult, log: History)
    requires core.Core?
    modifies variables
    ensures var run := RunTests(engine, client, core.tests, old(variables.Scope()), sent, CoreFailed);
            && result == CoreResult(CoreStatus(run.last), run.results)
            && variables.Scope() == run.store && log == run.sent
  {
    hide RunTest;
    log := sent;
    var tests: seq<TestResult> := [];
    var status := Passed;
    ghost var whole := RunTests(engine, client, core.tests, variables.Scope(), sent, CoreFailed);
    assert core.tests[0..] == core.tests;
    var i := 0;
    while i < |core.tests|
      invariant i <= |core.tests| && status == Passed
      invariant var rest := RunTests(engine, client, core.tests[i..], variables.Scope(), log, CoreFailed);
                whole == rest.(results := tests + rest.results, starts := whole.starts)
    {
      assert core.tests[i..][1..] == core.tests[i + 1..];
      ghost var before := variables.Scope();
      ghost var rest := RunTests(engine, client, core.tests[i + 1..],
                                 RunTest(engine, client, core.tests[i], before, log).store,
                                 RunTest(engine, client, core.tests[i], before, log).sent, CoreFailed);
      var outcome;
      outcome, log := ExecuteTest(engine, core.tests[i], variables, client, log);
      PrefixResult(tests, outcome, rest.results);
      PrefixResult(tests, outcome, SkippedTests(core.tests[i + 1..], CoreFailed));
      tests := tests + [outcome];
      if outcome.status != Passed {
        status := if outcome.status == Aborted then Aborted else Failed;
        tests := tests + SkippedTests(core.tests[i + 1..], CoreFailed);
        break;
      }
      i := i + 1;
    }
    result := CoreResult(status, tests);
  }

  method ExecutePipeline(engine: Engine, pipeline: SuiteBlock, variables: VariableStore, client: Client, sent: History)
    returns (result: BlockResult, log: History)
    requires pipeline.Pipeline?
    modifies variables
    ensures var run := RunTests(engine, client, pipeline.tests, old(variables.Scope()), sent, PipelineFailed);
            && result == PipelineResult(pipeline.name, PipelineStatus(run.last), run.results)
            && variables.Scope() == run.store && log == run.sent
  {
    hide RunTest;
    log := sent;
    var tests: seq<TestResult> := [];
    var status := Passed;
    ghost var whole := RunTests(engine, client, pipeline.tests, variables.Scope(), sent, PipelineFailed);
    assert pipeline.tests[0..] == pipeline.tests;
    var i := 0;
    while i < |pipeline.tests|
      invariant i <= |pipeline.tests| && status == Passed
      invariant var rest := RunTests(engine, client, pipeline.tests[i..], variables.Scope(), log, PipelineFailed);
                whole == rest.(results := tests + rest.results, starts := whole.starts)
    {
      assert pipeline.tests[i..][1..] == pipeline.tests[i + 1..];
      ghost var before := variables.Scope();
      ghost var rest := RunTests(engine, client, pipeline.tests[i + 1..],
                                 RunTest(engine, client, pipeline.tests[i], before, log).store,
                                 RunTest(engine, client, pipeline.tests[i], before, log).sent, PipelineFailed);
      var outcome;
      outcome, log := ExecuteTest(engine, pipeline.tests[i], variables, client, log);
      PrefixResult(tests, outcome, rest.results);
      PrefixResult(tests, outcome, SkippedTests(pipeline.tests[i + 1..], PipelineFailed));
      tests := tests + [outcome];
      if outcome.status != Passed {
        status := Failed;
        tests := tests + SkippedTests(pipeline.tests[i + 1..], PipelineFailed);
        break;
      }
      i := i + 1;
    }
    result := PipelineResult(pipeline.name, status, tests);
  }

  // ---- suites ----

  function FirstCoreIndex(blocks: seq<SuiteBlock>, i: nat): (r: Option<nat>)
    requires i <= |blocks|
    ensures r.Some? ==> i <= r.value < |blocks| && blocks[r.value].Core? && forall k | i <= k < r.value :: !blocks[k].Core?
    ensures r.None? ==> forall k | i <= k < |blocks| :: !blocks[k].Core?
    decreases |blocks| - i
  {
    if i == |blocks| then None else if blocks[i].Core? then Some(i) else FirstCoreIndex(blocks, i + 1)
  }

  function CoreCount(blocks: seq<SuiteBlock>): nat {
    if blocks == [] then 0 else (if blocks[0].Core? then 1 else 0) + CoreCount(blocks[1..])
  }

  predicate HasEmptyPipeline(blocks: seq<SuiteBlock>) {
    exists i | 0 <= i < |blocks| :: blocks[i].Pipeline? && blocks[i].tests == []
  }

  function Preflight(suite: TestSuite): Option<SkipReason> {
    if suite.blocks == [] then Some(EmptySuite)
    else if CoreCount(suite.blocks) > 1 then Some(SeveralCores)
    else if HasEmptyPipeline(suite.blocks) then Some(EmptyPipeline)
    else None
  }

  /** One pipeline or standalone test, starting from its own copy of the scope after core. */
  datatype BlockRun = BlockRun(result: BlockResult, sent: History, starts: seq<Contents>)

  function RunBlock(engine: Engine, client: Client, block: SuiteBlock, store: Contents, sent: History): BlockRun
    requires !block.Core?
  {
    match block
    case Pipeline(name, tests) =>
      var run := RunTests(engine, client, tests, store, sent, PipelineFailed);
      BlockRun(PipelineResult(name, PipelineStatus(run.last), run.results), run.sent, run.starts)
    case Test(test) =>
      var run := RunTest(engine, client, test, store, sent);
      BlockRun(StandaloneResult(run.result), run.sent, [store])
  }

  function StatusOf(result: BlockResult): Status {
    if result.StandaloneResult? then result.test.status else result.status
  }

  /** Results in source order, all requests, and for every block the scopes its executed tests started in. */
  datatype SuiteRun = SuiteRun(result: SuiteResult, sent: History, starts: seq<seq<Contents>>)

  datatype BlocksRun = BlocksRun(results: seq<BlockResult>, failed: bool, sent: History, starts: seq<seq<Contents>>)

  /** The blocks from index `i` on; the core has been run already. */
  function RunBlocks(
    engine: Engine, client: Client, blocks: seq<SuiteBlock>, i: nat, core: Option<(nat, BlockRun)>, store: Contents,
    sent: History): BlocksRun
    requires i <= |blocks|
    requires forall k | i <= k < |blocks| && blocks[k].Core? :: core.Some? && core.value.0 == k
    decreases |blocks| - i
  {
    if i == |blocks| then BlocksRun([], false, sent, [])
    else if core.Some? && core.value.0 == i then
      var rest := RunBlocks(engine, client, blocks, i + 1, core, store, sent);
      rest.(results := [core.value.1.result] + rest.results, starts := [core.value.1.starts] + rest.starts)
    else
      var run := RunBlock(engine, client, blocks[i], store, sent);
      var rest := RunBlocks(engine, client, blocks, i + 1, core, store, run.sent);
      BlocksRun([run.result] + rest.results, StatusOf(run.result) != Passed || rest.failed, rest.sent,
                [run.starts] + rest.starts)
  }

  /** The core's own result in its place, and every other block skipped. */
  function AllButCoreSkipped(blocks: seq<SuiteBlock>, index: nat, core: BlockResult): (r: seq<BlockResult>)
    requires index < |blocks|
    ensures |r| == |blocks|
  {
    SkippedBlocks(blocks, CoreFailed)[index := core]
  }

  lemma {:induction false} OneCoreAtMost(blocks: seq<SuiteBlock>, i: nat, j: nat)
    requires CoreCount(blocks) <= 1 && i < j < |blocks|
    ensures !(blocks[i].Core? && blocks[j].Core?)
    decreases |blocks|
  {
    if i > 0 {
      OneCoreAtMost(blocks[1..], i - 1, j - 1);
    } else if blocks[0].Core? && blocks[j].Core? {
      NoCoreLeft(blocks[1..], j - 1);
    }
  }

  lemma {:induction false} NoCoreLeft(blocks: seq<SuiteBlock>, j: nat)
    requires j < |blocks| && blocks[j].Core?
    ensures CoreCount(blocks) >= 1
    decreases |blocks|
  {
    if j > 0 {
      NoCoreLeft(blocks[1..], j - 1);
    }
  }

  /** After preflight, every core block is the first one. */
  lemma CoresAreFirst(suite: TestSuite)
    requires Preflight(suite).None?
    ensures forall k | 0 <= k < |suite.blocks| && suite.blocks[k].Core? :: FirstCoreIndex(suite.blocks, 0) == Some(k)
  {
    forall k | 0 <= k < |suite.blocks| && suite.blocks[k].Core?
      ensures FirstCoreIndex(suite.blocks, 0) == Some(k)
    {
      var first := FirstCoreIndex(suite.blocks, 0);
      if first.Some? && first.value != k {
        OneCoreAtMost(suite.blocks, first.value, k);
      }
    }
  }

  /** What core leaves behind for the rest of the suite. */
  datatype CorePhase = CorePhase(run: Option<(nat, BlockRun)>, store: Contents, sent: History)

  function RunCore(engine: Engine, client: Client, suite: TestSuite, initial: Contents): (r: CorePhase)
    ensures r.run.None? <==> FirstCoreIndex(suite.blocks, 0).None?
    ensures r.run.Some? ==> FirstCoreIndex(suite.blocks, 0) == Some(r.run.value.0)
  {
    match FirstCoreIndex(suite.blocks, 0)
    case None => CorePhase(None, initial, [])
    case Some(index) =>
      var run := RunTests(engine, client, suite.blocks[index].tests, initial, [], CoreFailed);
      var result := CoreResult(CoreStatus(run.last), run.results);
      CorePhase(Some((index, BlockRun(result, run.sent, run.starts))), run.store, run.sent)
  }

  function RunSuite(engine: Engine, client: Client, suite: TestSuite, initial: Contents): SuiteRun {
    match Preflight(suite)
    case Some(reason) =>
      SuiteRun(
        SuiteResult(suite.name, Aborted, SkippedBlocks(suite.blocks, reason), Some(ErrorInfo(Internal, ReasonCause(reason)))),
        [], seq(|suite.blocks|, _ => []))
    case None =>
      var core := RunCore(engine, client, suite, initial);
      if core.run.Some? && core.run.value.1.result.status != Passed then
        var (index, run) := core.run.value;
        SuiteRun(
          SuiteResult(suite.name, Aborted, AllButCoreSkipped(suite.blocks, index, run.result),
                      Some(ErrorInfo(DependencyFailed, ReasonCause(CoreFailed)))),
          core.sent, seq(|suite.blocks|, _ => [])[index := run.starts])
      else
        CoresAreFirst(suite);
        var run := RunBlocks(engine, client, suite.blocks, 0, core.run, core.store, core.sent);
        SuiteRun(SuiteResult(suite.name, if run.failed then Failed else Passed, run.results, None), run.sent, run.starts)
  }

  /** Every block must have received a result by now. */
  method CollectResults(results: seq<Option<BlockResult>>) returns (collected: seq<BlockResult>)
    requires forall i | 0 <= i < |results| :: results[i].Some?
    ensures |collected| == |results| && forall i | 0 <= i < |results| :: results[i] == Some(collected[i])
  {
    collected := [];
    var i := 0;
    while i < |results|
      invariant |collected| == i <= |results| && forall k | 0 <= k < i :: results[k] == Some(collected[k])
    {
      collected := collected + [results[i].value];
      i := i + 1;
    }
  }

  /** The body of the loop over the blocks after core: an isolated copy of the scope for each of them. */
  method ExecuteBlock(engine: Engine, block: SuiteBlock, postCore: VariableStore, client: Client, sent: History)
    returns (result: BlockResult, log: History)
    requires !block.Core?
    ensures var run := RunBlock(engine, client, block, postCore.Scope(), sent);
            result == run.result && log == run.sent
  {
    var variables := new VariableStore(postCore.values);
    match block
    case Pipeline(_, _) =>
      result, log := ExecutePipeline(engine, block, variables, client, sent);
    case Test(test) =>
      var outcome;
      outcome, log := ExecuteTest(engine, test, variables, client, sent);
      result := StandaloneResult(outcome);
  }

  /** What `RunBlocks` adds for one block, in the form the loop needs. */
  lemma RunBlocksStep(
    engine: Engine, client: Client, blocks: seq<SuiteBlock>, i: nat, core: Option<(nat, BlockRun)>, store: Contents,
    sent: History)
    requires i < |blocks|
    requires forall k | i <= k < |blocks| && blocks[k].Core? :: core.Some? && core.value.0 == k
    ensures var all := RunBlocks(engine, client, blocks, i, core, store, sent);
            && |all.results| > 0
            && if core.Some? && core.value.0 == i then
                 var rest := RunBlocks(engine, client, blocks, i + 1, core, store, sent);
                 all.results[0] == core.value.1.result && all.results[1..] == rest.results
                 && all.failed == rest.failed && all.sent == rest.sent
               else
                 var run := RunBlock(engine, client, blocks[i], store, sent);
                 var rest := RunBlocks(engine, client, blocks, i + 1, core, store, run.sent);
                 all.results[0] == run.result && all.results[1..] == rest.results
                 && all.failed == (StatusOf(run.result) != Passed || rest.failed) && all.sent == rest.sent
  {
  }

  lemma {:induction false} RunBlocksLength(
    engine: Engine, client: Client, blocks: seq<SuiteBlock>, i: nat, core: Option<(nat, BlockRun)>, store: Contents,
    sent: History)
    requires i <= |blocks|
    requires forall k | i <= k < |blocks| && blocks[k].Core? :: core.Some? && core.value.0 == k
    ensures var run := RunBlocks(engine, client, blocks, i, core, store, sent);
            |run.results| == |blocks| - i && |run.starts| == |blocks| - i
    decreases |blocks| - i
  {
    hide RunBlock;
    if i < |blocks| {
      if core.Some? && core.value.0 == i {
        RunBlocksLength(engine, client, blocks, i + 1, core, store, sent);
      } else {
        var run := RunBlock(engine, client, blocks[i], store, sent);
        RunBlocksLength(engine, client, blocks, i + 1, core, store, run.sent);
      }
    }
  }

  method ExecuteBlocks(
    engine: Engine, blocks: seq<SuiteBlock>, core: Option<nat>, results: seq<Option<BlockResult>>,
    postCore: VariableStore, client: Client, sent: History, ghost coreRun: Option<(nat, BlockRun)>)
    returns (completed: seq<Option<BlockResult>>, failed: bool, log: History)
    requires |results| == |blocks|
    requires core == match coreRun case None => None case Some(run) => Some(run.0)
    requires forall k | 0 <= k < |blocks| && blocks[k].Core? :: core == Some(k)
    requires forall k | 0 <= k < |blocks| && core == Some(k) :: results[k] == Some(coreRun.value.1.result)
    ensures var run := RunBlocks(engine, client, blocks, 0, coreRun, postCore.Scope(), sent);
            && |completed| == |blocks| == |run.results|
            && (forall k | 0 <= k < |blocks| :: completed[k] == Some(run.results[k]))
            && failed == run.failed && log == run.sent
  {
    hide RunBlock;
    hide RunBlocks;
    completed := results;
    failed := false;
    log := sent;
    ghost var whole := RunBlocks(engine, client, blocks, 0, coreRun, postCore.Scope(), sent);
    RunBlocksLength(engine, client, blocks, 0, coreRun, postCore.Scope(), sent);
    var i := 0;
    while i < |blocks|
      invariant i <= |blocks| == |completed|
      invariant forall k | 0 <= k < i :: completed[k] == Some(whole.results[k])
      invariant forall k | i <= k < |blocks| :: completed[k] == results[k]
      invariant var rest := RunBlocks(engine, client, blocks, i, coreRun, postCore.Scope(), log);
                && whole.results[i..] == rest.results
                && whole.failed == (failed || rest.failed) && whole.sent == rest.sent
    {
      RunBlocksStep(engine, client, blocks, i, coreRun, postCore.Scope(), log);
      assert whole.results[i..][0] == whole.results[i] && whole.results[i..][1..] == whole.results[i + 1..];
      if core != Some(i) {
        var result;
        result, log := ExecuteBlock(engine, blocks[i], postCore, client, log);
        if StatusOf(result) != Passed {
          failed := true;
        }
        completed := completed[i := Some(result)];
      }
      i := i + 1;
    }
    RunBlocksDone(engine, client, blocks, coreRun, postCore.Scope(), log);
  }

  lemma RunBlocksDone(
    engine: Engine, client: Client, blocks: seq<SuiteBlock>, core: Option<(nat, BlockRun)>, store: Contents,
    sent: History)
    ensures RunBlocks(engine, client, blocks, |blocks|, core, store, sent) == BlocksRun([], false, sent, [])
  {
  }

  /** Whole suites. The caller's store is only read: nothing but fresh copies of it is ever changed. */
  method Execute(engine: Engine, suite: TestSuite, initial: VariableStore, client: Client)
    returns (result: SuiteResult, log: History)
    ensures var run := RunSuite(engine, client, suite, initial.Scope());
            result == run.result && log == run.sent
  {
    hide RunBlocks;
    log := [];
    var reason := Preflight(suite);
    if reason.Some? {
      return SuiteResult(suite.name, Aborted, SkippedBlocks(suite.blocks, reason.value),
                         Some(ErrorInfo(Internal, ReasonCause(reason.value)))), log;
    }
    CoresAreFirst(suite);
    var core := FirstCoreIndex(suite.blocks, 0);
    var results: seq<Option<BlockResult>> := seq(|suite.blocks|, _ => None);
    var postCore := new VariableStore(initial.values);
    ghost var phase := RunCore(engine, client, suite, initial.Scope());
    if core.Some? {
      var index := core.value;
      var outcome;
      outcome, log := ExecuteCore(engine, suite.blocks[index], postCore, client, log);
      results := results[index := Some(outcome)];
      if outcome.status != Passed {
        results := SkipMissing(suite.blocks, results);
        var collected := CollectResults(results);
        assert collected == AllButCoreSkipped(suite.blocks, index, outcome);
        return SuiteResult(suite.name, Aborted, collected, Some(ErrorInfo(DependencyFailed, ReasonCause(CoreFailed)))),
               log;
      }
    }
    var failed;
    results, failed, log := ExecuteBlocks(engine, suite.blocks, core, results, postCore, client, log, phase.run);
    ghost var run := RunBlocks(engine, client, suite.blocks, 0, phase.run, phase.store, phase.sent);
    var collected := CollectResults(results);
    assert collected == run.results;
    return SuiteResult(suite.name, if failed then Failed else Passed, collected, None), log;
  }

  /** Fills the places of all blocks without a result. */
  method SkipMissing(blocks: seq<SuiteBlock>, results: seq<Option<BlockResult>>)
    returns (completed: seq<Option<BlockResult>>)
    requires |results| == |blocks|
    ensures |completed| == |blocks|
    ensures forall k | 0 <= k < |blocks| ::
              completed[k] == if results[k].Some? then results[k] else Some(SkippedBlock(blocks[k], CoreFailed))
  {
    completed := results;
    var i := 0;
    while i < |blocks|
      invariant i <= |blocks| == |completed|
      invariant forall k | 0 <= k < i ::
                  completed[k] == if results[k].Some? then results[k] else Some(SkippedBlock(blocks[k], CoreFailed))
      invariant forall k | i <= k < |blocks| :: completed[k] == results[k]
    {
      if completed[i].None? {
        completed := completed[i := Some(SkippedBlock(blocks[i], CoreFailed))];
      }
      i := i + 1;
    }
  }
}
