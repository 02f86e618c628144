/** The shape of every run, for every suite and every client. */
module RunShape {
  import opened Wrappers
  import opened IndexMap
  import opened Response
  import opened Expectation
  import opened Domain
  import opened AssertionEngine
  import opened Variables
  import opened RuntimeErrors
  import opened Resolver
  import opened Execution
  import CheckedRuns

  function TestsOf(block: SuiteBlock): seq<TestCase> {
    CheckedRuns.TestsOf(block)
  }

  function ResultsOf(result: BlockResult): seq<TestResult> {
    CheckedRuns.ResultsOf(result)
  }

  // ---- sequences ----

  /** One result per test: passed ones, at most one that is not, and the rest skipped. */
  ghost predicate Stops(tests: seq<TestCase>, results: seq<TestResult>, executed: nat, reason: SkipReason) {
    && |results| == |tests| && executed <= |tests|
    && (forall k | 0 <= k < |tests| :: results[k].name == tests[k].name)
    && (forall k | 0 <= k < executed :: !results[k].status.Skipped?)
    && (forall k | 0 <= k < executed - 1 :: results[k].status.Passed?)
    && (forall k | executed <= k < |tests| :: results[k] == SkippedTest(tests[k].name, reason))
    && (executed < |tests| ==> executed > 0 && !results[executed - 1].status.Passed?)
  }

  /** The requests between two places of the history are those of the executed tests, in order. */
  ghost predicate SentFor(
    engine: Engine, log: History, from: nat, to: nat, tests: seq<TestCase>, starts: seq<Contents>)
  {
    && from <= to <= |log| && to - from <= |starts| <= |tests| && |starts| <= to - from + 1
    && forall j | 0 <= j < to - from ::
         ResolveRequest(engine.runtime, tests[j].request, starts[j]) == Ok(log[from + j])
  }

  lemma OneTestShape(engine: Engine, client: Client, test: TestCase, store: Contents, sent: History)
    ensures var run := RunTest(engine, client, test, store, sent);
            && run.result.name == test.name && !run.result.status.Skipped?
            && sent <= run.sent
            && SentFor(engine, run.sent, |sent|, |run.sent|, [test], [store])
            && (run.result.status.Passed? ==> |run.sent| == |sent| + 1)
            && (if run.result.status.Passed? then store <= run.store else run.store == store)
  {
    hide Judge;
    var request := ResolveRequest(engine.runtime, test.request, store);
    var expectation := ResolveExpectation(engine.runtime, test.expectation, store);
    if request.Ok? && expectation.Ok? {
      var outcome := client(sent + [request.value]);
      if outcome.Reply? {
        JudgeShape(engine, test, expectation.value, outcome.response, store, sent + [request.value]);
      }
    }
  }

  lemma JudgeShape(
    engine: Engine, test: TestCase, expectation: ResolvedExpectation, response: HttpResponse,
    store: Contents, log: History)
    ensures var run := Judge(engine, test, expectation, response, store, log);
            && run.result.name == test.name && !run.result.status.Skipped? && run.sent == log
            && (if run.result.status.Passed? then store <= run.store else run.store == store)
  {
  }

  lemma SentForConsed(
    engine: Engine, first: History, log: History, from: nat, tests: seq<TestCase>, store: Contents, starts: seq<Contents>)
    requires tests != [] && |first| == from + 1 && first <= log
    requires SentFor(engine, first, from, from + 1, [tests[0]], [store])
    requires SentFor(engine, log, from + 1, |log|, tests[1..], starts)
    ensures SentFor(engine, log, from, |log|, tests, [store] + starts)
  {
    hide ResolveRequest;
    var all := [store] + starts;
    assert ResolveRequest(engine.runtime, [tests[0]][0].request, [store][0]) == Ok(first[from + 0]);
    assert first[from] == log[from];
    forall j | 0 <= j < |log| - from
      ensures ResolveRequest(engine.runtime, tests[j].request, all[j]) == Ok(log[from + j])
    {
      if j > 0 {
        var i := j - 1;
        assert tests[1..][i] == tests[j] && starts[i] == all[j] && log[from + 1 + i] == log[from + j];
      }
    }
  }

  /** A test that stops the sequence has sent one request or none. */
  lemma SentForOne(engine: Engine, log: History, from: nat, tests: seq<TestCase>, store: Contents)
    requires tests != [] && SentFor(engine, log, from, |log|, [tests[0]], [store])
    ensures SentFor(engine, log, from, |log|, tests, [store])
  {
    hide ResolveRequest;
    forall j | 0 <= j < |log| - from
      ensures ResolveRequest(engine.runtime, tests[j].request, [store][j]) == Ok(log[from + j])
    {
      assert [tests[0]][j] == tests[j];
    }
  }

  lemma {:induction false} SequenceShape(
    engine: Engine, client: Client, tests: seq<TestCase>, store: Contents, sent: History, reason: SkipReason)
    ensures var run := RunTests(engine, client, tests, store, sent, reason);
            && Stops(tests, run.results, |run.starts|, reason)
            && (run.last.Passed? <==> forall k | 0 <= k < |tests| :: run.results[k].status.Passed?)
            && (run.last.Aborted? ==> exists k | 0 <= k < |tests| :: run.results[k].status.Aborted?)
            && sent <= run.sent && SentFor(engine, run.sent, |sent|, |run.sent|, tests, run.starts)
            && (forall k | 0 <= k < |run.starts| :: store <= run.starts[k])
    decreases |tests|
  {
    hide RunTest;
    hide ResolveRequest;
    hide Stops;
    hide SentFor;
    if tests == [] {
      NothingToRun(engine, sent, reason);
    } else {
      OneTestShape(engine, client, tests[0], store, sent);
      var run := RunTests(engine, client, tests, store, sent, reason);
      var step := RunTest(engine, client, tests[0], store, sent);
      if step.result.status == Passed {
        SequenceShape(engine, client, tests[1..], step.store, step.sent, reason);
        var rest := RunTests(engine, client, tests[1..], step.store, step.sent, reason);
        SentForConsed(engine, step.sent, run.sent, |sent|, tests, store, rest.starts);
        StopsConsed(tests, step.result, rest.results, |rest.starts|, reason);
        AllPassedConsed(step.result, rest.results);
        if run.last.Aborted? {
          var k :| 0 <= k < |rest.results| && rest.results[k].status.Aborted?;
          assert run.results[k + 1] == rest.results[k];
        }
      } else {
        assert run.results[0] == step.result;
        StopsHere(tests, step.result, reason);
        SentForOne(engine, run.sent, |sent|, tests, store);
      }
    }
  }

  lemma NothingToRun(engine: Engine, sent: History, reason: SkipReason)
    ensures Stops([], [], 0, reason) && SentFor(engine, sent, |sent|, |sent|, [], [])
  {
  }

  lemma StopsHere(tests: seq<TestCase>, first: TestResult, reason: SkipReason)
    requires tests != [] && first.name == tests[0].name && !first.status.Passed? && !first.status.Skipped?
    ensures Stops(tests, [first] + SkippedTests(tests[1..], reason), 1, reason)
  {
  }

  lemma AllPassedConsed(first: TestResult, rest: seq<TestResult>)
    requires first.status.Passed?
    ensures var all := [first] + rest;
            (forall k | 0 <= k < |all| :: all[k].status.Passed?) <==> (forall k | 0 <= k < |rest| :: rest[k].status.Passed?)
  {
    var all := [first] + rest;
    assert forall k | 0 <= k < |rest| :: rest[k] == all[k + 1];
    assert forall k | 1 <= k < |all| :: all[k] == rest[k - 1];
  }

  lemma StopsConsed(
    tests: seq<TestCase>, first: TestResult, rest: seq<TestResult>, executed: nat, reason: SkipReason)
    requires tests != [] && first.name == tests[0].name && first.status.Passed?
    requires Stops(tests[1..], rest, executed, reason)
    ensures Stops(tests, [first] + rest, executed + 1, reason)
  {
    var all := [first] + rest;
    assert forall k | 1 <= k < |all| :: all[k] == rest[k - 1] && tests[k] == tests[1..][k - 1];
  }

  // ---- blocks ----

  /** The result of a block that ran: its kind, its names, and its status. */
  ghost predicate BlockShape(block: SuiteBlock, result: BlockResult, executed: nat) {
    match block
    case Core(tests) =>
      && result.CoreResult? && Stops(tests, result.tests, executed, CoreFailed) && !result.status.Skipped?
      && (result.status.Passed? <==> AllPassed(result.tests))
      && (result.status.Aborted? ==> exists k | 0 <= k < |tests| :: result.tests[k].status.Aborted?)
    case Pipeline(name, tests) =>
      && result.PipelineResult? && result.name == name && Stops(tests, result.tests, executed, PipelineFailed)
      && (if AllPassed(result.tests) then result.status.Passed? else result.status.Failed?)
    case Test(test) =>
      result.StandaloneResult? && Stops([test], [result.test], executed, PipelineFailed)
  }

  predicate AllPassed(results: seq<TestResult>) {
    forall k | 0 <= k < |results| :: results[k].status.Passed?
  }

  lemma RunBlockShape(engine: Engine, client: Client, block: SuiteBlock, store: Contents, sent: History)
    requires !block.Core?
    ensures var run := RunBlock(engine, client, block, store, sent);
            && BlockShape(block, run.result, |run.starts|)
            && (StatusOf(run.result).Passed? <==> AllPassed(ResultsOf(run.result)))
            && sent <= run.sent && SentFor(engine, run.sent, |sent|, |run.sent|, TestsOf(block), run.starts)
  {
    hide RunTests;
    hide RunTest;
    match block
    case Pipeline(_, tests) => SequenceShape(engine, client, tests, store, sent, PipelineFailed);
    case Test(test) =>
      OneTestShape(engine, client, test, store, sent);
      var results := ResultsOf(RunBlock(engine, client, block, store, sent).result);
      assert |results| == 1 && results[0] == RunTest(engine, client, test, store, sent).result;
  }

  lemma RunCoreShape(engine: Engine, client: Client, suite: TestSuite, initial: Contents)
    ensures var core := RunCore(engine, client, suite, initial);
            if core.run.None? then core.store == initial && core.sent == []
            else
              var (index, run) := core.run.value;
              && index < |suite.blocks| && suite.blocks[index].Core?
              && run.result.CoreResult? && BlockShape(suite.blocks[index], run.result, |run.starts|)
              && run.sent == core.sent
              && SentFor(engine, core.sent, 0, |core.sent|, suite.blocks[index].tests, run.starts)
  {
    hide RunTests;
    var first := FirstCoreIndex(suite.blocks, 0);
    if first.Some? {
      SequenceShape(engine, client, suite.blocks[first.value].tests, initial, [], CoreFailed);
    }
  }

  /** The length of the history after each block from `i` on. */
  function LogEnds(
    engine: Engine, client: Client, blocks: seq<SuiteBlock>, i: nat, core: Option<(nat, BlockRun)>, store: Contents,
    sent: History): (r: seq<nat>)
    requires i <= |blocks|
    requires forall k | i <= k < |blocks| && blocks[k].Core? :: core.Some? && core.value.0 == k
    ensures |r| == |blocks| - i
    decreases |blocks| - i
  {
    if i == |blocks| then []
    else
      var after :=
        if core.Some? && core.value.0 == i then sent else RunBlock(engine, client, blocks[i], store, sent).sent;
      [|after|] + LogEnds(engine, client, blocks, i + 1, core, store, after)
  }

  /** The requests of one block, given the part of the history that belongs to it. */
  ghost predicate BlockSent(
    engine: Engine, log: History, from: nat, to: nat, block: SuiteBlock, result: BlockResult, starts: seq<Contents>,
    core: Option<(nat, BlockRun)>)
  {
    if block.Core? then
      from == to && core.Some? && result == core.value.1.result && starts == core.value.1.starts
    else
      BlockShape(block, result, |starts|) && SentFor(engine, log, from, to, TestsOf(block), starts)
  }

  lemma SentForExtended(
    engine: Engine, log: History, longer: History, from: nat, to: nat, tests: seq<TestCase>, starts: seq<Contents>)
    requires SentFor(engine, log, from, to, tests, starts) && log <= longer
    ensures SentFor(engine, longer, from, to, tests, starts)
  {
    hide ResolveRequest;
    forall j | 0 <= j < to - from
      ensures ResolveRequest(engine.runtime, tests[j].request, starts[j]) == Ok(longer[from + j])
    {
      assert log[from + j] == longer[from + j];
    }
  }

  function From(ends: seq<nat>, k: nat, sent: History): nat
    requires k <= |ends|
  {
    if k == 0 then |sent| else ends[k - 1]
  }

  /** What holds of the blocks from `i` on. */
  ghost predicate BlocksSent(
    engine: Engine, blocks: seq<SuiteBlock>, i: nat, core: Option<(nat, BlockRun)>, sent: History, run: BlocksRun,
    ends: seq<nat>)
  {
    && |run.results| == |run.starts| == |ends| == |blocks| - i
    && sent <= run.sent && |run.sent| == From(ends, |ends|, sent)
    && forall k | 0 <= k < |ends| ::
         BlockSent(engine, run.sent, From(ends, k, sent), ends[k], blocks[i + k], run.results[k], run.starts[k], core)
  }

  lemma BlocksSentConsed(
    engine: Engine, blocks: seq<SuiteBlock>, i: nat, core: Option<(nat, BlockRun)>, sent: History, later: History,
    first: BlockRun, rest: BlocksRun, restEnds: seq<nat>, run: BlocksRun, ends: seq<nat>)
    requires i < |blocks| && BlocksSent(engine, blocks, i + 1, core, later, rest, restEnds)
    requires run.results == [first.result] + rest.results && run.starts == [first.starts] + rest.starts
    requires run.sent == rest.sent && ends == [|later|] + restEnds && sent <= later
    requires BlockSent(engine, run.sent, |sent|, |later|, blocks[i], first.result, first.starts, core)
    ensures BlocksSent(engine, blocks, i, core, sent, run, ends)
  {
    hide BlockSent;
    forall k | 0 <= k < |ends|
      ensures BlockSent(engine, run.sent, From(ends, k, sent), ends[k], blocks[i + k], run.results[k], run.starts[k],
                        core)
    {
      if k > 0 {
        assert blocks[i + k] == blocks[i + 1 + (k - 1)] && From(ends, k, sent) == From(restEnds, k - 1, later);
      }
    }
  }

  lemma {:induction false} BlocksShape(
    engine: Engine, client: Client, blocks: seq<SuiteBlock>, i: nat, core: Option<(nat, BlockRun)>, store: Contents,
    sent: History)
    requires i <= |blocks|
    requires forall k | i <= k < |blocks| && blocks[k].Core? :: core.Some? && core.value.0 == k
    requires core.Some? && i <= core.value.0 < |blocks| ==> blocks[core.value.0].Core?
    ensures BlocksSent(engine, blocks, i, core, sent, RunBlocks(engine, client, blocks, i, core, store, sent),
                       LogEnds(engine, client, blocks, i, core, store, sent))
    decreases |blocks| - i
  {
    hide *;
    if i == |blocks| {
      NoBlocksSent(engine, client, blocks, core, store, sent);
    } else {
      var isCore := core.Some? && core.value.0 == i;
      var first := if isCore then core.value.1 else RunBlock(engine, client, blocks[i], store, sent);
      var later := if isCore then sent else first.sent;
      BlocksShape(engine, client, blocks, i + 1, core, store, later);
      var all := RunBlocks(engine, client, blocks, i, core, store, sent);
      var rest := RunBlocks(engine, client, blocks, i + 1, core, store, later);
      BlocksUnfold(engine, client, blocks, i, core, store, sent);
      LaterIsPrefix(engine, blocks, i + 1, core, later, rest, LogEnds(engine, client, blocks, i + 1, core, store, later));
      FirstSent(engine, client, blocks[i], i, core, store, sent, all.sent);
      BlocksSentConsed(engine, blocks, i, core, sent, later, first, rest,
                       LogEnds(engine, client, blocks, i + 1, core, store, later), all,
                       LogEnds(engine, client, blocks, i, core, store, sent));
    }
  }

  lemma NoBlocksSent(
    engine: Engine, client: Client, blocks: seq<SuiteBlock>, core: Option<(nat, BlockRun)>, store: Contents,
    sent: History)
    ensures BlocksSent(engine, blocks, |blocks|, core, sent,
                       RunBlocks(engine, client, blocks, |blocks|, core, store, sent),
                       LogEnds(engine, client, blocks, |blocks|, core, store, sent))
  {
  }

  lemma LaterIsPrefix(
    engine: Engine, blocks: seq<SuiteBlock>, i: nat, core: Option<(nat, BlockRun)>, sent: History, run: BlocksRun,
    ends: seq<nat>)
    requires BlocksSent(engine, blocks, i, core, sent, run, ends)
    ensures sent <= run.sent
  {
  }

  lemma BlocksUnfold(
    engine: Engine, client: Client, blocks: seq<SuiteBlock>, i: nat, core: Option<(nat, BlockRun)>, store: Contents,
    sent: History)
    requires i < |blocks|
    requires forall k | i <= k < |blocks| && blocks[k].Core? :: core.Some? && core.value.0 == k
    ensures var isCore := core.Some? && core.value.0 == i;
            var first := if isCore then core.value.1 else RunBlock(engine, client, blocks[i], store, sent);
            var later := if isCore then sent else first.sent;
            var all := RunBlocks(engine, client, blocks, i, core, store, sent);
            var rest := RunBlocks(engine, client, blocks, i + 1, core, store, later);
            && all.results == [first.result] + rest.results && all.starts == [first.starts] + rest.starts
            && all.sent == rest.sent
            && LogEnds(engine, client, blocks, i, core, store, sent)
               == [|later|] + LogEnds(engine, client, blocks, i + 1, core, store, later)
  {
    hide RunBlock;
  }

  lemma FirstSent(
    engine: Engine, client: Client, block: SuiteBlock, i: nat, core: Option<(nat, BlockRun)>, store: Contents,
    sent: History, whole: History)
    requires block.Core? <==> core.Some? && core.value.0 == i
    requires (if block.Core? then sent else RunBlock(engine, client, block, store, sent).sent) <= whole
    ensures var first := if block.Core? then core.value.1 else RunBlock(engine, client, block, store, sent);
            var later := if block.Core? then sent else first.sent;
            && sent <= later
            && BlockSent(engine, whole, |sent|, |later|, block, first.result, first.starts, core)
  {
    if !block.Core? {
      RunBlockShape(engine, client, block, store, sent);
      var first := RunBlock(engine, client, block, store, sent);
      SentForExtended(engine, first.sent, whole, |sent|, |first.sent|, TestsOf(block), first.starts);
    }
  }

  // ---- suites ----

  /** The whole history: core's requests, then those of every other block in source order. */
  ghost predicate InOrder(
    engine: Engine, suite: TestSuite, core: CorePhase, run: SuiteRun, ends: seq<nat>)
  {
    && |run.result.blocks| == |run.starts| == |ends| == |suite.blocks|
    && core.sent <= run.sent && |run.sent| == From(ends, |ends|, core.sent)
    && forall k | 0 <= k < |ends| ::
         BlockSent(engine, run.sent, From(ends, k, core.sent), ends[k], suite.blocks[k], run.result.blocks[k],
                   run.starts[k], core.run)
  }

  predicate CorePassed(core: CorePhase) {
    core.run.Some? ==> StatusOf(core.run.value.1.result).Passed?
  }

  predicate TwoCores(blocks: seq<SuiteBlock>) {
    exists i, j | 0 <= i < j < |blocks| :: blocks[i].Core? && blocks[j].Core?
  }

  /** What a suite must look like to be run at all. */
  predicate Executable(suite: TestSuite) {
    suite.blocks != [] && !TwoCores(suite.blocks) && !HasEmptyPipeline(suite.blocks)
  }

  /** The reason given for a rejected suite: the first of the three demands that is not met. */
  predicate Explains(reason: SkipReason, suite: TestSuite) {
    match reason
    case EmptySuite => suite.blocks == []
    case SeveralCores => TwoCores(suite.blocks)
    case EmptyPipeline => !TwoCores(suite.blocks) && HasEmptyPipeline(suite.blocks)
    case _ => false
  }

  /** Every test of every block is reported under its name, as skipped for this reason. */
  predicate NothingRan(suite: TestSuite, result: SuiteResult, reason: SkipReason) {
    && |result.blocks| == |suite.blocks|
    && forall k | 0 <= k < |suite.blocks| ::
         var tests, results := TestsOf(suite.blocks[k]), ResultsOf(result.blocks[k]);
         && StatusOf(result.blocks[k]).Skipped? && |results| == |tests|
         && forall j | 0 <= j < |tests| :: results[j] == SkippedTest(tests[j].name, reason)
  }

  /**
   * A suite is rejected, with an internal error, iff it is not executable. Then nothing is sent, every test of every
   * block is skipped, and the reason given is the right one. An executable suite never ends in an internal error.
   */
  lemma InvalidSuitesSendNothing(engine: Engine, client: Client, suite: TestSuite, initial: Contents)
    ensures var run := RunSuite(engine, client, suite, initial);
            && (!Executable(suite) <==> run.result.error.Some? && run.result.error.value.kind.Internal?)
            && (!Executable(suite) ==>
                  && run.sent == [] && run.result.status.Aborted?
                  && run.result.error.value.cause.ReasonCause?
                  && var reason := run.result.error.value.cause.reason;
                     Explains(reason, suite) && NothingRan(suite, run.result, reason))
  {
    hide RunCore;
    hide RunBlocks;
    hide CoreCount;
    hide TwoCores;
    hide HasEmptyPipeline;
    hide NothingRan;
    CoreCountMeaning(suite.blocks);
    if Preflight(suite).Some? {
      SkippedBlocksRanNothing(suite, RunSuite(engine, client, suite, initial).result, Preflight(suite).value);
    }
  }

  lemma SkippedBlocksRanNothing(suite: TestSuite, result: SuiteResult, reason: SkipReason)
    requires result.blocks == SkippedBlocks(suite.blocks, reason)
    ensures NothingRan(suite, result, reason)
  {
    forall k | 0 <= k < |suite.blocks|
      ensures var tests, results := TestsOf(suite.blocks[k]), ResultsOf(result.blocks[k]);
              && StatusOf(result.blocks[k]).Skipped? && |results| == |tests|
              && forall j | 0 <= j < |tests| :: results[j] == SkippedTest(tests[j].name, reason)
    {
      assert result.blocks[k] == SkippedBlock(suite.blocks[k], reason);
    }
  }

  lemma {:induction false} CoreCountMeaning(blocks: seq<SuiteBlock>)
    ensures CoreCount(blocks) > 0 <==> exists i | 0 <= i < |blocks| :: blocks[i].Core?
    ensures CoreCount(blocks) > 1 <==> TwoCores(blocks)
    decreases |blocks|
  {
    if blocks != [] {
      var rest := blocks[1..];
      CoreCountMeaning(rest);
      assert forall i | 0 <= i < |rest| :: rest[i] == blocks[i + 1];
      assert forall i | 0 < i < |blocks| :: blocks[i] == rest[i - 1];
      if TwoCores(rest) {
        var i, j :| 0 <= i < j < |rest| && rest[i].Core? && rest[j].Core?;
        assert blocks[i + 1].Core? && blocks[j + 1].Core?;
      }
      if blocks[0].Core? && CoreCount(rest) > 0 {
        var j :| 0 <= j < |rest| && rest[j].Core?;
        assert blocks[0].Core? && blocks[j + 1].Core?;
      }
      if TwoCores(blocks) {
        var i, j :| 0 <= i < j < |blocks| && blocks[i].Core? && blocks[j].Core?;
        assert rest[j - 1].Core?;
        if i > 0 {
          assert rest[i - 1].Core? && rest[j - 1].Core?;
        }
      }
    }
  }

  /** After a failed core every other block is skipped, and core's requests are all that was ever sent. */
  lemma CoreFailureStopsTheSuite(engine: Engine, client: Client, suite: TestSuite, initial: Contents)
    requires Preflight(suite).None? && !CorePassed(RunCore(engine, client, suite, initial))
    ensures var core := RunCore(engine, client, suite, initial);
            var run := RunSuite(engine, client, suite, initial);
            var (index, coreRun) := core.run.value;
            && run.sent == core.sent && run.result.status.Aborted?
            && index < |suite.blocks| == |run.result.blocks|
            && BlockShape(suite.blocks[index], run.result.blocks[index], |coreRun.starts|)
            && SentFor(engine, run.sent, 0, |run.sent|, suite.blocks[index].tests, coreRun.starts)
            && (forall k | 0 <= k < |suite.blocks| && k != index ::
                  run.result.blocks[k] == SkippedBlock(suite.blocks[k], CoreFailed))
  {
    hide RunBlocks;
    hide Preflight;
    hide SentFor;
    hide BlockShape;
    RunCoreShape(engine, client, suite, initial);
  }

  /** Otherwise every block runs; the requests of core come first and the others follow in source order. */
  lemma CompletedRunsAreInOrder(engine: Engine, client: Client, suite: TestSuite, initial: Contents)
    requires Preflight(suite).None? && CorePassed(RunCore(engine, client, suite, initial))
    ensures var core := RunCore(engine, client, suite, initial);
            && (forall k | 0 <= k < |suite.blocks| && suite.blocks[k].Core? :: core.run.Some? && core.run.value.0 == k)
            && InOrder(engine, suite, core, RunSuite(engine, client, suite, initial),
                       LogEnds(engine, client, suite.blocks, 0, core.run, core.store, core.sent))
            && (core.run.Some? ==>
                  var (index, run) := core.run.value;
                  && index < |suite.blocks| && suite.blocks[index].Core?
                  && BlockShape(suite.blocks[index], run.result, |run.starts|)
                  && SentFor(engine, core.sent, 0, |core.sent|, suite.blocks[index].tests, run.starts))
  {
    hide RunBlocks;
    hide LogEnds;
    hide Preflight;
    hide BlockSent;
    hide SentFor;
    hide BlockShape;
    CoresAreFirst(suite);
    RunCoreShape(engine, client, suite, initial);
    var core := RunCore(engine, client, suite, initial);
    BlocksShape(engine, client, suite.blocks, 0, core.run, core.store, core.sent);
    var ends := LogEnds(engine, client, suite.blocks, 0, core.run, core.store, core.sent);
    var run := RunBlocks(engine, client, suite.blocks, 0, core.run, core.store, core.sent);
    forall k | 0 <= k < |ends|
      ensures BlockSent(engine, run.sent, From(ends, k, core.sent), ends[k], suite.blocks[k], run.results[k],
                        run.starts[k], core.run)
    {
      assert suite.blocks[0 + k] == suite.blocks[k];
    }
  }

  predicate SomeNotPassed(results: seq<BlockResult>) {
    exists k | 0 <= k < |results| :: !AllPassed(ResultsOf(results[k]))
  }

  lemma SomeNotPassedCons(first: BlockResult, rest: seq<BlockResult>)
    ensures SomeNotPassed([first] + rest) <==> !AllPassed(ResultsOf(first)) || SomeNotPassed(rest)
  {
    hide AllPassed;
    hide ResultsOf;
    var all := [first] + rest;
    assert forall k | 0 <= k < |rest| :: rest[k] == all[k + 1];
    assert all[0] == first;
  }

  lemma {:induction false} FailedMeaning(
    engine: Engine, client: Client, blocks: seq<SuiteBlock>, i: nat, core: Option<(nat, BlockRun)>, store: Contents,
    sent: History)
    requires i <= |blocks|
    requires forall k | i <= k < |blocks| && blocks[k].Core? :: core.Some? && core.value.0 == k
    requires core.Some? && i <= core.value.0 < |blocks| ==> blocks[core.value.0].Core?
    requires core.Some? ==> AllPassed(ResultsOf(core.value.1.result))
    ensures var run := RunBlocks(engine, client, blocks, i, core, store, sent);
            run.failed <==> SomeNotPassed(run.results)
    decreases |blocks| - i
  {
    hide RunBlock;
    hide AllPassed;
    hide ResultsOf;
    hide StatusOf;
    if i < |blocks| {
      hide SomeNotPassed;
      var isCore := core.Some? && core.value.0 == i;
      var first := if isCore then core.value.1 else RunBlock(engine, client, blocks[i], store, sent);
      var later := if isCore then sent else first.sent;
      if !isCore {
        RunBlockShape(engine, client, blocks[i], store, sent);
      }
      FailedMeaning(engine, client, blocks, i + 1, core, store, later);
      SomeNotPassedCons(first.result, RunBlocks(engine, client, blocks, i + 1, core, store, later).results);
    }
  }

  /** An executable suite passes iff every one of its tests does. */
  lemma PassedMeansAllPassed(engine: Engine, client: Client, suite: TestSuite, initial: Contents)
    requires Preflight(suite).None?
    ensures var run := RunSuite(engine, client, suite, initial);
            run.result.status.Passed? <==>
            forall k | 0 <= k < |run.result.blocks| :: AllPassed(ResultsOf(run.result.blocks[k]))
  {
    hide RunBlocks;
    hide Preflight;
    hide AllPassed;
    RunCoreShape(engine, client, suite, initial);
    var core := RunCore(engine, client, suite, initial);
    var run := RunSuite(engine, client, suite, initial);
    if CorePassed(core) {
      CoresAreFirst(suite);
      FailedMeaning(engine, client, suite.blocks, 0, core.run, core.store, core.sent);
    } else {
      var index := core.run.value.0;
      assert run.result.blocks[index] == core.run.value.1.result;
    }
  }
}
