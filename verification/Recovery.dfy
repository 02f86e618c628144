/**
 * Error recovery of the parser: where it resumes, and what it makes of input in which everything is in order but some
 * noise between the parts of one list, crates/rettp-parser/src/parser.
 */
module Recovery {
  import opened Wrappers
  import opened Ast
  import opened Tokens
  import opened Grammar

  datatype ParserErrorKind =
    | UnexpectedToken(found: TokenKind)
    | UnexpectedEof
    | EmptySuite
    | DuplicateCore
    | EmptyPipeline
    | MissingRequest
    | MissingExpectation
    | RequestAfterExpectation
    | CaptureRequiresType
    | MissingFieldAssertion
    | NestingLimitExceeded(limit: nat)

  const HARD_MAX_NESTING_DEPTH := 256

  // ---- token classes of error recovery ----

  predicate SuiteBoundary(kind: TokenKind) {
    kind == CORE || kind == PIPELINE || kind == TEST
  }

  predicate OuterBlockBoundary(kind: TokenKind) {
    kind == CORE || kind == PIPELINE
  }

  predicate TestBoundary(kind: TokenKind) {
    SuiteBoundary(kind) || kind == REQUEST || kind == EXPECT
  }

  predicate SectionStart(kind: TokenKind) {
    kind == STATUS || kind == HEADERS || kind == BODY
  }

  predicate ContainerBoundary(kind: TokenKind) {
    TestBoundary(kind) || kind == HEADERS || kind == QUERY || kind == BODY
  }

  predicate RecoveryBoundary(kind: TokenKind) {
    || ContainerBoundary(kind)
    || kind == EOF || kind == STATUS || kind == EXACT
    || kind == LEFT_BRACE || kind == RIGHT_BRACE || kind == LEFT_BRACKET || kind == RIGHT_BRACKET
    || kind == COLON || kind == EQUAL || kind == ARROW || kind == COMMA
  }

  /** Where recovery stops within the entries of an object, the items of an array, and so on outwards. */
  predicate EntryStop(kind: TokenKind) {
    ContainerBoundary(kind) || kind == COMMA || kind == RIGHT_BRACE
  }

  predicate ItemStop(kind: TokenKind) {
    ContainerBoundary(kind) || kind == COMMA || kind == RIGHT_BRACKET
  }

  predicate AssertionStop(kind: TokenKind) {
    TestBoundary(kind) || kind == COMMA || kind == RIGHT_BRACE
  }

  predicate RequestSectionStop(kind: TokenKind) {
    TestBoundary(kind) || kind == HEADERS || kind == QUERY || kind == BODY || kind == RIGHT_BRACE
  }

  predicate ExpectationSectionStop(kind: TokenKind) {
    TestBoundary(kind) || SectionStart(kind) || kind == RIGHT_BRACE
  }

  predicate TestItemStop(kind: TokenKind) {
    TestBoundary(kind) || kind == RIGHT_BRACE
  }

  predicate ContainedTestStop(kind: TokenKind) {
    SuiteBoundary(kind) || kind == RIGHT_BRACE
  }

  /** The first position from `i` on with such a token, or the end of the input. */
  function FirstStop(tokens: seq<TokenKind>, i: nat, stops: TokenKind -> bool): (r: nat)
    requires i <= |tokens|
    ensures i <= r <= |tokens|
    ensures Peek(tokens, i) != EOF && !stops(Peek(tokens, i)) ==> i < r
    decreases |tokens| - i
  {
    if Peek(tokens, i) == EOF || stops(Peek(tokens, i)) then i else FirstStop(tokens, i + 1, stops)
  }

  /** The position behind the bracket that closes `depth` open ones, or the end of the input. */
  function BalancedEnd(tokens: seq<TokenKind>, i: nat, depth: nat): (r: nat)
    requires i <= |tokens|
    ensures i <= r <= |tokens|
    decreases |tokens| - i
  {
    var kind := Peek(tokens, i);
    if kind == EOF || depth == 0 then i
    else if kind == LEFT_BRACE || kind == LEFT_BRACKET then BalancedEnd(tokens, i + 1, depth + 1)
    else if kind == RIGHT_BRACE || kind == RIGHT_BRACKET then BalancedEnd(tokens, i + 1, depth - 1)
    else BalancedEnd(tokens, i + 1, depth)
  }

  /** Behind a token that cannot start an entry, an item or a field: at the next one. */
  function ResumeAt(tokens: seq<TokenKind>, i: nat, stops: TokenKind -> bool): (r: nat)
    requires i < |tokens|
    ensures i <= r <= |tokens|
  {
    AfterOptionalComma(tokens, FirstStop(tokens, if RecoveryBoundary(Peek(tokens, i)) then i else i + 1, stops))
  }

  /** Behind a token that cannot start a section or a part of a test: at the next one. */
  function SkipAt(tokens: seq<TokenKind>, i: nat, stops: TokenKind -> bool): (r: nat)
    requires i < |tokens|
    ensures i < r <= |tokens|
  {
    FirstStop(tokens, i + 1, stops)
  }

  // ---- noise in lists ----

  type Errors = seq<ParserErrorKind>

  /** A construct parsed with recovery, the position behind it, and all errors so far. */
  datatype Recovered<+T> = Recovered(node: T, next: nat, errors: Errors)

  /**
   * A loop over a list: what an item is and which tokens start one, where the list ends or is given up, and where the
   * loop goes on behind a token that can do none of this.
   */
  datatype Loop<T> = Loop(
    item: nat -> Option<Parsed<T>>, starts: TokenKind -> bool, leaves: TokenKind -> bool, close: TokenKind,
    resume: nat -> nat)

  /**
   * The items of a list and its closing token: whatever cannot start an item is one error and is skipped. `None` if an
   * item itself is malformed or the closing token is missing.
   */
  function RecoveredLoop<T>(tokens: seq<TokenKind>, i: nat, loop: Loop<T>, nodes: seq<T>, errors: Errors)
    : (r: Option<Recovered<seq<T>>>)
    ensures r.Some? ==> i < r.value.next
    decreases |tokens| - i
  {
    var kind := Peek(tokens, i);
    if kind == EOF then None
    else if kind == loop.close then Some(Recovered(nodes, i + 1, errors))
    else if loop.leaves(kind) then None
    else if loop.starts(kind) then
      var item :- loop.item(i);
      if item.next <= i then None else RecoveredLoop(tokens, item.next, loop, nodes + [item.node], errors)
    else if loop.resume(i) <= i then None
    else RecoveredLoop(tokens, loop.resume(i), loop, nodes, errors + [UnexpectedToken(kind)])
  }

  predicate StartsKey(kind: TokenKind) {
    KeyText(kind).Some?
  }

  predicate StartsValue(kind: TokenKind) {
    ScalarOf(kind).Some? || kind == LEFT_BRACKET || kind == LEFT_BRACE
  }

  predicate StartsRequestSection(kind: TokenKind) {
    kind == HEADERS || kind == QUERY || kind == BODY
  }

  function EntryLoop(tokens: seq<TokenKind>, room: nat): Loop<(string, ValueAst)> {
    Loop(i => EntryAt(tokens, i, room), StartsKey, ContainerBoundary, RIGHT_BRACE,
         (i: nat) => if i < |tokens| then ResumeAt(tokens, i, EntryStop) else i)
  }

  function ItemLoop(tokens: seq<TokenKind>, room: nat): Loop<ValueAst> {
    Loop(i => ItemAt(tokens, i, room), StartsValue, ContainerBoundary, RIGHT_BRACKET,
         (i: nat) => if i < |tokens| then ResumeAt(tokens, i, ItemStop) else i)
  }

  function FieldLoop(tokens: seq<TokenKind>, room: nat): Loop<FieldAssertionAst> {
    Loop(i => FieldItemAt(tokens, i, room), StartsKey, ContainerBoundary, RIGHT_BRACE,
         (i: nat) => if i < |tokens| then ResumeAt(tokens, i, AssertionStop) else i)
  }

  function RequestSectionLoop(tokens: seq<TokenKind>, room: nat): Loop<RequestSection> {
    Loop(i => RequestSectionAt(tokens, i, room), StartsRequestSection, TestBoundary, RIGHT_BRACE,
         (i: nat) => if i < |tokens| then SkipAt(tokens, i, RequestSectionStop) else i)
  }

  function ExpectationSectionLoop(tokens: seq<TokenKind>, room: nat): Loop<ExpectationSection> {
    Loop(i => ExpectationSectionAt(tokens, i, room), SectionStart, TestBoundary, RIGHT_BRACE,
         (i: nat) => if i < |tokens| then SkipAt(tokens, i, ExpectationSectionStop) else i)
  }

  // ---- noise between the parts of a test ----

  /** Requests and then expectations, at least one of each, and the closing brace; other tokens are skipped. */
  function RecoveredTestItems(
    tokens: seq<TokenKind>, i: nat, room: nat, requests: seq<RequestAst>, expectations: seq<ExpectationAst>,
    errors: Errors)
    : (r: Option<Recovered<(seq<RequestAst>, seq<ExpectationAst>)>>)
    ensures r.Some? ==> i < r.value.next <= |tokens|
    decreases |tokens| - i
  {
    var kind := Peek(tokens, i);
    if kind == RIGHT_BRACE then
      if requests == [] || expectations == [] then None
      else Some(Recovered((requests, expectations), i + 1, errors))
    else if kind == EOF || SuiteBoundary(kind) then None
    else if kind == REQUEST then
      var request :- RequestAt(tokens, i, room);
      if expectations != [] then None
      else RecoveredTestItems(tokens, request.next, room, requests + [request.node], expectations, errors)
    else if kind == EXPECT then
      var expectation :- ExpectationAt(tokens, i, room);
      RecoveredTestItems(tokens, expectation.next, room, requests, expectations + [expectation.node], errors)
    else
      RecoveredTestItems(
        tokens, SkipAt(tokens, i, TestItemStop), room, requests, expectations, errors + [UnexpectedToken(kind)])
  }

  // ---- noise between tests and blocks ----

  /**
   * The tests up to the closing brace of a container, which is not consumed: whatever cannot start a test is one error
   * and is skipped up to the next test or the brace. `None` if a test itself is malformed or the brace is missing.
   */
  function RecoveredTests(tokens: seq<TokenKind>, i: nat, room: nat, tests: seq<TestAst>, errors: Errors)
    : (r: Option<Recovered<seq<TestAst>>>)
    ensures r.Some? ==> i <= r.value.next < |tokens| && Peek(tokens, r.value.next) == RIGHT_BRACE
    decreases |tokens| - i
  {
    var kind := Peek(tokens, i);
    if kind == RIGHT_BRACE then Some(Recovered(tests, i, errors))
    else if kind == EOF || OuterBlockBoundary(kind) then None
    else if kind == TEST then
      var test :- TestAt(tokens, i, room);
      RecoveredTests(tokens, test.next, room, tests + [test.node], errors)
    else
      RecoveredTests(
        tokens, FirstStop(tokens, i + 1, ContainedTestStop), room, tests, errors + [UnexpectedToken(kind)])
  }

  function RecoveredCore(tokens: seq<TokenKind>, i: nat, room: nat, errors: Errors)
    : (r: Option<Recovered<seq<TestAst>>>)
    ensures r.Some? ==> i < r.value.next <= |tokens|
  {
    if Peek(tokens, i) != CORE || Peek(tokens, i + 1) != LEFT_BRACE then None
    else
      var tests :- RecoveredTests(tokens, i + 2, room, [], errors);
      Some(tests.(next := tests.next + 1))
  }

  function RecoveredPipelineTests(tokens: seq<TokenKind>, i: nat, room: nat, errors: Errors)
    : (r: Option<Recovered<seq<TestAst>>>)
    ensures r.Some? ==> i < r.value.next <= |tokens|
  {
    var tests :- RecoveredTests(tokens, i, room, [], errors);
    Some(Recovered(tests.node, tests.next + 1, if tests.node == [] then tests.errors + [EmptyPipeline] else tests.errors))
  }

  function RecoveredPipeline(tokens: seq<TokenKind>, i: nat, room: nat, errors: Errors)
    : (r: Option<Recovered<(string, seq<TestAst>)>>)
    ensures r.Some? ==> i < r.value.next <= |tokens|
  {
    if Peek(tokens, i) != PIPELINE then None
    else
      var name :- StringAt(tokens, i + 1);
      if Peek(tokens, i + 2) != LEFT_BRACE then None
      else
        var tests :- RecoveredPipelineTests(tokens, i + 3, room, errors);
        Some(Recovered((name, tests.node), tests.next, tests.errors))
  }

  function RecoveredBlock(tokens: seq<TokenKind>, i: nat, room: nat, errors: Errors): (r: Option<Recovered<BlockAst>>)
    ensures r.Some? ==> i < r.value.next <= |tokens|
  {
    if Peek(tokens, i) == CORE then
      var core :- RecoveredCore(tokens, i, room, errors);
      Some(Recovered(CoreAst(core.node), core.next, core.errors))
    else if Peek(tokens, i) == PIPELINE then
      var pipeline :- RecoveredPipeline(tokens, i, room, errors);
      Some(Recovered(PipelineAst(pipeline.node.0, pipeline.node.1), pipeline.next, pipeline.errors))
    else
      var test :- TestAt(tokens, i, room);
      Some(Recovered(StandaloneAst(test.node), test.next, errors))
  }

  /** The blocks of the whole input: whatever cannot start a block is one error and is skipped up to the next block. */
  function RecoveredBlocks(
    tokens: seq<TokenKind>, i: nat, room: nat, hasCore: bool, blocks: seq<BlockAst>, errors: Errors)
    : Option<(seq<BlockAst>, Errors)>
    decreases |tokens| - i
  {
    var kind := Peek(tokens, i);
    if kind == EOF then Some((blocks, if blocks == [] && errors == [] then [EmptySuite] else errors))
    else if SuiteBoundary(kind) then
      var counted := if kind == CORE && hasCore then errors + [DuplicateCore] else errors;
      var block :- RecoveredBlock(tokens, i, room, counted);
      RecoveredBlocks(tokens, block.next, room, hasCore || kind == CORE, blocks + [block.node], block.errors)
    else
      RecoveredBlocks(
        tokens, FirstStop(tokens, i + 1, SuiteBoundary), room, hasCore, blocks, errors + [UnexpectedToken(kind)])
  }
}
