/** Blocks do not influence each other, except through core and through what the server remembers. */
module Isolation {
  import opened Wrappers
  import opened IndexMap
  import opened Domain
  import opened Variables
  import opened Resolver
  import opened Execution
  import RunShape

  /** A client whose answer depends on the request alone. */
  ghost predicate Forgetful(client: Client) {
    forall a: History, b: History :: a != [] && b != [] && a[|a| - 1] == b[|b| - 1] ==> client(a) == client(b)
  }

  lemma TestIgnoresHistory(
    engine: Engine, client: Client, test: TestCase, store: Contents, a: History, b: History)
    requires Forgetful(client)
    ensures RunTest(engine, client, test, store, a).result == RunTest(engine, client, test, store, b).result
    ensures RunTest(engine, client, test, store, a).store == RunTest(engine, client, test, store, b).store
  {
    hide ResolveRequest;
    hide ResolveExpectation;
    var request := ResolveRequest(engine.runtime, test.request, store);
    if request.Ok? {
      assert (a + [request.value])[|a|] == (b + [request.value])[|b|];
      assert client(a + [request.value]) == client(b + [request.value]);
    }
  }

  lemma {:induction false} TestsIgnoreHistory(
    engine: Engine, client: Client, tests: seq<TestCase>, store: Contents, a: History, b: History, reason: SkipReason)
    requires Forgetful(client)
    ensures var x := RunTests(engine, client, tests, store, a, reason);
            var y := RunTests(engine, client, tests, store, b, reason);
            x.results == y.results && x.last == y.last && x.store == y.store && x.starts == y.starts
    decreases |tests|
  {
    hide RunTest;
    if tests != [] {
      TestIgnoresHistory(engine, client, tests[0], store, a, b);
      var x := RunTest(engine, client, tests[0], store, a);
      var y := RunTest(engine, client, tests[0], store, b);
      TestsIgnoreHistory(engine, client, tests[1..], x.store, x.sent, y.sent, reason);
    }
  }

  lemma BlockIgnoresHistory(engine: Engine, client: Client, block: SuiteBlock, store: Contents, a: History, b: History)
    requires Forgetful(client) && !block.Core?
    ensures RunBlock(engine, client, block, store, a).result == RunBlock(engine, client, block, store, b).result
  {
    hide RunTests;
    hide RunTest;
    match block
    case Pipeline(_, tests) => TestsIgnoreHistory(engine, client, tests, store, a, b, PipelineFailed);
    case Test(test) => TestIgnoresHistory(engine, client, test, store, a, b);
  }

  /** In a run of blocks, each one fares as if it ran right after core. */
  lemma {:induction false} BlockRunsAlone(
    engine: Engine, client: Client, blocks: seq<SuiteBlock>, i: nat, core: Option<(nat, BlockRun)>, store: Contents,
    sent: History, k: nat)
    requires Forgetful(client) && i <= k < |blocks| && !blocks[k].Core?
    requires forall k | i <= k < |blocks| && blocks[k].Core? :: core.Some? && core.value.0 == k
    requires core.Some? && i <= core.value.0 < |blocks| ==> blocks[core.value.0].Core?
    ensures var run := RunBlocks(engine, client, blocks, i, core, store, sent);
            && |run.results| == |blocks| - i
            && run.results[k - i] == RunBlock(engine, client, blocks[k], store, []).result
    decreases k - i
  {
    hide RunBlock;
    hide RunBlocks;
    RunBlocksLength(engine, client, blocks, i, core, store, sent);
    RunBlocksStep(engine, client, blocks, i, core, store, sent);
    if k == i {
      BlockIgnoresHistory(engine, client, blocks[k], store, sent, []);
    } else {
      var later :=
        if core.Some? && core.value.0 == i then sent else RunBlock(engine, client, blocks[i], store, sent).sent;
      BlockRunsAlone(engine, client, blocks, i + 1, core, store, later, k);
      var run := RunBlocks(engine, client, blocks, i, core, store, sent);
      assert run.results[1..][k - i - 1] == run.results[k - i];
    }
  }

  /** The tests of the core block, if there is one. */
  function CoreTests(suite: TestSuite): Option<seq<TestCase>> {
    match FirstCoreIndex(suite.blocks, 0)
    case None => None
    case Some(index) => Some(suite.blocks[index].tests)
  }

  lemma SameCorePhase(engine: Engine, client: Client, s: TestSuite, t: TestSuite, initial: Contents)
    requires CoreTests(s) == CoreTests(t)
    ensures var x, y := RunCore(engine, client, s, initial), RunCore(engine, client, t, initial);
            && x.store == y.store && x.sent == y.sent && (x.run.Some? <==> y.run.Some?)
            && (x.run.Some? ==> x.run.value.1 == y.run.value.1)
  {
    hide RunTests;
  }

  /** What becomes of a block, given the core phase. */
  lemma BlockAfterCore(engine: Engine, client: Client, suite: TestSuite, initial: Contents, i: nat)
    requires Forgetful(client) && Preflight(suite).None? && i < |suite.blocks| && !suite.blocks[i].Core?
    ensures var core := RunCore(engine, client, suite, initial);
            var run := RunSuite(engine, client, suite, initial);
            && |run.result.blocks| == |suite.blocks|
            && run.result.blocks[i] == if RunShape.CorePassed(core)
               then RunBlock(engine, client, suite.blocks[i], core.store, []).result
               else SkippedBlock(suite.blocks[i], CoreFailed)
  {
    hide RunTests;
    hide RunBlock;
    hide RunBlocks;
    hide Forgetful;
    hide Preflight;
    var core := RunCore(engine, client, suite, initial);
    if RunShape.CorePassed(core) {
      CoresAreFirst(suite);
      BlockRunsAlone(engine, client, suite.blocks, 0, core.run, core.store, core.sent, i);
    }
  }

  /**
   * Non-interference: with the same core and the same initial scope, a block has the same result in any two suites,
   * whatever other blocks come before or after it.
   */
  lemma BlocksAreIsolated(
    engine: Engine, client: Client, s: TestSuite, t: TestSuite, initial: Contents, i: nat, j: nat)
    requires Forgetful(client) && Preflight(s).None? && Preflight(t).None? && CoreTests(s) == CoreTests(t)
    requires i < |s.blocks| && j < |t.blocks| && s.blocks[i] == t.blocks[j] && !s.blocks[i].Core?
    ensures var x, y := RunSuite(engine, client, s, initial), RunSuite(engine, client, t, initial);
            && |x.result.blocks| == |s.blocks| && |y.result.blocks| == |t.blocks|
            && x.result.blocks[i] == y.result.blocks[j]
  {
    hide *;
    SameCorePhase(engine, client, s, t, initial);
    BlockAfterCore(engine, client, s, initial, i);
    BlockAfterCore(engine, client, t, initial, j);
    SameVerdict(RunCore(engine, client, s, initial), RunCore(engine, client, t, initial));
  }

  lemma SameVerdict(x: CorePhase, y: CorePhase)
    requires (x.run.Some? <==> y.run.Some?) && (x.run.Some? ==> x.run.value.1 == y.run.value.1)
    ensures RunShape.CorePassed(x) == RunShape.CorePassed(y)
  {
  }
}
