/**
 * The recovering recursive-descent parser, crates/rettp-parser/src/parser. It ends on every token sequence, malformed or
 * without an end marker, and reports no error exactly for the sequences the grammar accepts.
 */
module Parsing {
  import opened Wrappers
  import opened IndexMap
  import opened JsonValues
  import opened Expectation
  import opened Domain
  import opened Ast
  import opened Tokens
  import opened Grammar
  import opened Recovery

  lemma NoKeyAtBoundary(kind: TokenKind)
    ensures kind == EOF || ContainerBoundary(kind) ==> KeyText(kind).None?
  {
    hide VerbText;
  }

  lemma NoEntryAtBoundary(tokens: seq<TokenKind>, i: nat, room: nat)
    ensures Peek(tokens, i) == EOF || ContainerBoundary(Peek(tokens, i)) ==> EntryAt(tokens, i, room).None?
  {
    hide KeyText;
    hide EntryAt;
    hide ContainerBoundary;
    NoKeyAtBoundary(Peek(tokens, i));
    EntryCases(tokens, i, room);
  }

  lemma NoItemAtBoundary(tokens: seq<TokenKind>, i: nat, room: nat)
    ensures Peek(tokens, i) == EOF || ContainerBoundary(Peek(tokens, i)) ==> ItemAt(tokens, i, room).None?
  {
  }

  /** Without a new error, exactly what the grammar says has been parsed; otherwise the grammar rejects the input. */
  ghost predicate Parses<T>(spec: Option<Parsed<T>>, node: T, next: nat, before: Errors, after: Errors) {
    match spec
    case Some(parsed) => after == before && node == parsed.node && next == parsed.next
    case None => |after| > |before|
  }

  /** The same for one round of a loop, which yields nothing when it has to recover. */
  ghost predicate ParsesItem<T>(spec: Option<Parsed<T>>, node: Option<T>, next: nat, before: Errors, after: Errors) {
    match spec
    case Some(parsed) => after == before && node == Some(parsed.node) && next == parsed.next
    case None => |after| > |before|
  }

  /** The state inside a loop: what is left to parse still decides the whole. */
  ghost predicate Continues<T>(whole: Option<Parsed<T>>, rest: Option<Parsed<T>>, before: Errors, after: Errors) {
    (after == before && whole == rest) || (|after| > |before| && whole.None?)
  }

  /** An entry of an object or a request header, behind its key. */
  function EntryTailAt(tokens: seq<TokenKind>, i: nat, key: string, room: nat): Option<Parsed<(string, ValueAst)>> {
    if Peek(tokens, i) != EQUAL then None
    else
      var value :- ValueAt(tokens, i + 1, room);
      Some(Parsed((key, value.node), AfterOptionalComma(tokens, value.next)))
  }

  lemma EntryCases(tokens: seq<TokenKind>, i: nat, room: nat)
    ensures var key := KeyText(Peek(tokens, i));
            EntryAt(tokens, i, room) == if key.None? then None else EntryTailAt(tokens, i + 1, key.value, room)
  {
    hide ValueAt;
    hide KeyText;
  }

  lemma NoSectionAtBoundary(tokens: seq<TokenKind>, i: nat, room: nat)
    ensures Peek(tokens, i) == EOF || TestBoundary(Peek(tokens, i)) ==> RequestSectionAt(tokens, i, room).None?
  {
  }

  lemma NoRequestHeaderAtBoundary(tokens: seq<TokenKind>, i: nat, room: nat)
    ensures Peek(tokens, i) == EOF || ContainerBoundary(Peek(tokens, i)) ==> RequestHeaderAt(tokens, i, room).None?
  {
  }

  lemma RequestHeaderCases(tokens: seq<TokenKind>, i: nat, room: nat)
    ensures var name := StringAt(tokens, i);
            RequestHeaderAt(tokens, i, room)
            == if name.None? then None else EntryTailAt(tokens, i + 1, name.value, room)
  {
    hide ValueAt;
  }

  lemma NoExpectationSectionAtBoundary(tokens: seq<TokenKind>, i: nat, room: nat)
    ensures Peek(tokens, i) == EOF || TestBoundary(Peek(tokens, i)) ==> ExpectationSectionAt(tokens, i, room).None?
  {
  }

  /** The four ways a body assertion can go on. */
  lemma BodyCases(tokens: seq<TokenKind>, i: nat, room: nat)
    ensures var kind := Peek(tokens, i);
            var text := BodyTextAt(tokens, i + 1);
            if kind == Identifier("empty") then
              BodyContentAt(tokens, i, room) == Some(Parsed(EmptyBody, AfterOptionalComma(tokens, i + 1)))
            else if kind == EQUAL then
              if text.None? then BodyContentAt(tokens, i, room).None?
              else BodyContentAt(tokens, i, room) == Some(Parsed(TextExactBody(text.value.node), text.value.next))
            else if kind == Identifier("contains") then
              if text.None? then BodyContentAt(tokens, i, room).None?
              else BodyContentAt(tokens, i, room) == Some(Parsed(TextContainsBody(text.value.node), text.value.next))
            else
              var exact := kind == EXACT;
              var shape := AssertionAt(
                tokens, if exact then i + 1 else i, if exact then MatchExact else MatchPartial, room);
              if shape.None? then BodyContentAt(tokens, i, room).None?
              else BodyContentAt(tokens, i, room) == Some(Parsed(ObjectBody(shape.value.node), shape.value.next))
  {
    hide AssertionAt;
  }

  lemma NoResponseHeaderAtBoundary(tokens: seq<TokenKind>, i: nat)
    ensures Peek(tokens, i) == EOF || TestBoundary(Peek(tokens, i)) || SectionStart(Peek(tokens, i)) ==>
              ResponseHeaderAt(tokens, i).None?
  {
  }

  /** What is asserted of a response header, without the optional comma. */
  function HeaderTailAt(tokens: seq<TokenKind>, i: nat, name: string): Option<Parsed<ResponseHeaderAst>> {
    var text := StringAt(tokens, i + 1);
    if Peek(tokens, i) == COLON && Peek(tokens, i + 1) == TYPE_STRING then Some(Parsed(ExistsAst(name), i + 2))
    else if Peek(tokens, i) == EQUAL && text.Some? then Some(Parsed(ExactAst(name, text.value), i + 2))
    else if Peek(tokens, i) == Identifier("contains") && text.Some? then
      Some(Parsed(ContainsAst(name, text.value), i + 2))
    else None
  }

  lemma ResponseHeaderCases(tokens: seq<TokenKind>, i: nat)
    ensures var name := StringAt(tokens, i);
            if name.None? then ResponseHeaderAt(tokens, i).None?
            else
              match HeaderTailAt(tokens, i + 1, name.value)
              case None => ResponseHeaderAt(tokens, i).None?
              case Some(tail) =>
                ResponseHeaderAt(tokens, i) == Some(Parsed(tail.node, AfterOptionalComma(tokens, tail.next)))
  {
  }

  lemma NoFieldAtBoundary(tokens: seq<TokenKind>, i: nat, room: nat)
    ensures Peek(tokens, i) == EOF || ContainerBoundary(Peek(tokens, i)) ==> FieldItemAt(tokens, i, room).None?
  {
    hide KeyText;
    hide FieldAt;
    hide ContainerBoundary;
    NoKeyAtBoundary(Peek(tokens, i));
    FieldCases(tokens, i, room);
  }

  lemma FieldCases(tokens: seq<TokenKind>, i: nat, room: nat)
    ensures var name := KeyText(Peek(tokens, i));
            if name.None? then FieldAt(tokens, i, room).None?
            else
              var expectedType := FieldTypeAt(tokens, i + 1);
              if expectedType.None? then FieldAt(tokens, i, room).None?
              else
                var comparison := ComparisonAt(tokens, expectedType.value.next, expectedType.value.node, room);
                if comparison.None? then FieldAt(tokens, i, room).None?
                else
                  var capture := CaptureAt(tokens, comparison.value.next, expectedType.value.node);
                  if capture.None?
                     || (expectedType.value.node.None? && comparison.value.node.0.None? && comparison.value.node.1.None?)
                  then FieldAt(tokens, i, room).None?
                  else FieldAt(tokens, i, room)
                       == Some(Parsed(
                                 FieldAssertionAst(name.value, expectedType.value.node, comparison.value.node.0,
                                                   comparison.value.node.1, capture.value.node),
                                 capture.value.next))
  {
    hide ComparisonAt;
  }

  lemma NoComparisonAtEnd(tokens: seq<TokenKind>, i: nat, room: nat)
    ensures i >= |tokens| ==> ComparisonAt(tokens, i, None, room) == Some(Parsed((None, None), i))
  {
  }

  lemma NoTypeAtEnd()
    ensures TypeOf(EOF).None?
  {
  }

  /** With noise in between but everything else in order, exactly the recovered construct and its errors. */
  ghost predicate Recovers<T>(spec: Option<Recovered<T>>, node: T, next: nat, after: Errors) {
    spec.Some? ==> node == spec.value.node && next == spec.value.next && after == spec.value.errors
  }

  // ---- rounds of a list ----

  /** What one round of the parser makes of what stands at `i`: an item, or noise, behind which it resumes. */
  ghost predicate Round<T>(
    kind: TokenKind, starts: bool, item: Option<Parsed<T>>, resume: nat, node: Option<T>, next: nat, before: Errors,
    after: Errors)
  {
    && ParsesItem(item, node, next, before, after)
    && (!starts ==> node.None? && after == before + [UnexpectedToken(kind)] && next == resume)
  }

  /** The two readings of a list, by the grammar and with recovery. */
  datatype Readings<T> = Readings(exact: Option<Parsed<seq<T>>>, recovered: Option<Recovered<seq<T>>>)

  ghost predicate Ends<T>(readings: Readings<T>, closed: bool, nodes: seq<T>, i: nat, errors: Errors) {
    if closed then readings == Readings(Some(Parsed(nodes, i + 1)), Some(Recovered(nodes, i + 1, errors)))
    else readings == Readings(None, None)
  }

  /** What is left to read still decides the whole. */
  ghost predicate GoesOn<T>(whole: Readings<T>, rest: Readings<T>, before: Errors, after: Errors) {
    Continues(whole.exact, rest.exact, before, after) && (whole.recovered.Some? ==> whole.recovered == rest.recovered)
  }

  /** A list has been read, by whichever reading there is. */
  ghost predicate ReadAs<T>(readings: Readings<T>, nodes: seq<T>, next: nat, before: Errors, after: Errors) {
    Parses(readings.exact, nodes, next, before, after) && Recovers(readings.recovered, nodes, next, after)
  }

  lemma ResumeAhead(tokens: seq<TokenKind>, i: nat)
    requires i < |tokens| && Peek(tokens, i) != EOF && !ContainerBoundary(Peek(tokens, i))
    ensures Peek(tokens, i) != RIGHT_BRACE ==>
              i < ResumeAt(tokens, i, EntryStop) && i < ResumeAt(tokens, i, AssertionStop)
    ensures Peek(tokens, i) != RIGHT_BRACKET ==> i < ResumeAt(tokens, i, ItemStop)
  {
  }

  function ReadEntries(tokens: seq<TokenKind>, i: nat, room: nat, nodes: seq<(string, ValueAst)>, errors: Errors)
    : Readings<(string, ValueAst)>
  {
    Readings(
      EntriesAt(tokens, i, room, nodes),
      RecoveredLoop(tokens, i, EntryLoop(tokens, room), nodes, errors))
  }

  lemma EntriesEnd(tokens: seq<TokenKind>, i: nat, room: nat, nodes: seq<(string, ValueAst)>, errors: Errors)
    requires Peek(tokens, i) == RIGHT_BRACE || Peek(tokens, i) == EOF || ContainerBoundary(Peek(tokens, i))
    ensures Ends(ReadEntries(tokens, i, room, nodes, errors), Peek(tokens, i) == RIGHT_BRACE, nodes, i, errors)
  {
    hide EntryAt;
    hide ContainerBoundary;
    NoEntryAtBoundary(tokens, i, room);
  }

  lemma EntriesGoOn(
    tokens: seq<TokenKind>, i: nat, room: nat, nodes: seq<(string, ValueAst)>, before: Errors,
    node: Option<(string, ValueAst)>, next: nat, after: Errors)
    requires i < |tokens| && Peek(tokens, i) != EOF
    requires Peek(tokens, i) != RIGHT_BRACE && !ContainerBoundary(Peek(tokens, i))
    requires Round(Peek(tokens, i), StartsKey(Peek(tokens, i)), EntryAt(tokens, i, room),
                   ResumeAt(tokens, i, EntryStop), node, next, before, after)
    ensures GoesOn(ReadEntries(tokens, i, room, nodes, before),
                   ReadEntries(tokens, next, room, if node.Some? then nodes + [node.value] else nodes, after),
                   before, after)
  {
    hide EntryAt;
    hide ResumeAt;
    hide ContainerBoundary;
    hide StartsKey;
    ResumeAhead(tokens, i);
  }

  function ReadItems(tokens: seq<TokenKind>, i: nat, room: nat, nodes: seq<ValueAst>, errors: Errors)
    : Readings<ValueAst>
  {
    Readings(
      ItemsAt(tokens, i, room, nodes),
      RecoveredLoop(tokens, i, ItemLoop(tokens, room), nodes, errors))
  }

  lemma ItemsEnd(tokens: seq<TokenKind>, i: nat, room: nat, nodes: seq<ValueAst>, errors: Errors)
    requires Peek(tokens, i) == RIGHT_BRACKET || Peek(tokens, i) == EOF || ContainerBoundary(Peek(tokens, i))
    ensures Ends(ReadItems(tokens, i, room, nodes, errors), Peek(tokens, i) == RIGHT_BRACKET, nodes, i, errors)
  {
    hide ItemAt;
    hide ContainerBoundary;
    NoItemAtBoundary(tokens, i, room);
  }

  lemma ItemsGoOn(
    tokens: seq<TokenKind>, i: nat, room: nat, nodes: seq<ValueAst>, before: Errors,
    node: Option<ValueAst>, next: nat, after: Errors)
    requires i < |tokens| && Peek(tokens, i) != EOF
    requires Peek(tokens, i) != RIGHT_BRACKET && !ContainerBoundary(Peek(tokens, i))
    requires Round(Peek(tokens, i), StartsValue(Peek(tokens, i)), ItemAt(tokens, i, room),
                   ResumeAt(tokens, i, ItemStop), node, next, before, after)
    ensures GoesOn(ReadItems(tokens, i, room, nodes, before),
                   ReadItems(tokens, next, room, if node.Some? then nodes + [node.value] else nodes, after),
                   before, after)
  {
    hide ItemAt;
    hide ResumeAt;
    hide ContainerBoundary;
    hide StartsValue;
    ResumeAhead(tokens, i);
  }

  function ReadFields(tokens: seq<TokenKind>, i: nat, room: nat, nodes: seq<FieldAssertionAst>, errors: Errors)
    : Readings<FieldAssertionAst>
  {
    Readings(
      FieldsAt(tokens, i, room, nodes),
      RecoveredLoop(tokens, i, FieldLoop(tokens, room), nodes, errors))
  }

  lemma FieldsEnd(tokens: seq<TokenKind>, i: nat, room: nat, nodes: seq<FieldAssertionAst>, errors: Errors)
    requires Peek(tokens, i) == RIGHT_BRACE || Peek(tokens, i) == EOF || ContainerBoundary(Peek(tokens, i))
    ensures Ends(ReadFields(tokens, i, room, nodes, errors), Peek(tokens, i) == RIGHT_BRACE, nodes, i, errors)
  {
    hide FieldItemAt;
    hide ContainerBoundary;
    NoFieldAtBoundary(tokens, i, room);
  }

  lemma FieldsGoOn(
    tokens: seq<TokenKind>, i: nat, room: nat, nodes: seq<FieldAssertionAst>, before: Errors,
    node: Option<FieldAssertionAst>, next: nat, after: Errors)
    requires i < |tokens| && Peek(tokens, i) != EOF
    requires Peek(tokens, i) != RIGHT_BRACE && !ContainerBoundary(Peek(tokens, i))
    requires Round(Peek(tokens, i), StartsKey(Peek(tokens, i)), FieldItemAt(tokens, i, room),
                   ResumeAt(tokens, i, AssertionStop), node, next, before, after)
    ensures GoesOn(ReadFields(tokens, i, room, nodes, before),
                   ReadFields(tokens, next, room, if node.Some? then nodes + [node.value] else nodes, after),
                   before, after)
  {
    hide FieldItemAt;
    hide ResumeAt;
    hide ContainerBoundary;
    hide StartsKey;
    ResumeAhead(tokens, i);
  }

  function ReadRequestSections(tokens: seq<TokenKind>, i: nat, room: nat, nodes: seq<RequestSection>, errors: Errors)
    : Readings<RequestSection>
  {
    Readings(
      RequestSectionsAt(tokens, i, room, nodes),
      RecoveredLoop(tokens, i, RequestSectionLoop(tokens, room), nodes, errors))
  }

  lemma RequestSectionsEnd(tokens: seq<TokenKind>, i: nat, room: nat, nodes: seq<RequestSection>, errors: Errors)
    requires Peek(tokens, i) == RIGHT_BRACE || Peek(tokens, i) == EOF || TestBoundary(Peek(tokens, i))
    ensures Ends(ReadRequestSections(tokens, i, room, nodes, errors), Peek(tokens, i) == RIGHT_BRACE, nodes, i, errors)
  {
    hide RequestSectionAt;
    hide TestBoundary;
    NoSectionAtBoundary(tokens, i, room);
  }

  lemma RequestSectionsGoOn(
    tokens: seq<TokenKind>, i: nat, room: nat, nodes: seq<RequestSection>, before: Errors,
    node: Option<RequestSection>, next: nat, after: Errors)
    requires i < |tokens| && Peek(tokens, i) != EOF
    requires Peek(tokens, i) != RIGHT_BRACE && !TestBoundary(Peek(tokens, i))
    requires Round(Peek(tokens, i), StartsRequestSection(Peek(tokens, i)), RequestSectionAt(tokens, i, room),
                   SkipAt(tokens, i, RequestSectionStop), node, next, before, after)
    ensures GoesOn(ReadRequestSections(tokens, i, room, nodes, before),
                   ReadRequestSections(tokens, next, room, if node.Some? then nodes + [node.value] else nodes, after),
                   before, after)
  {
    hide RequestSectionAt;
    hide SkipAt;
    hide TestBoundary;
    hide StartsRequestSection;
  }

  function ReadExpectationSections(
    tokens: seq<TokenKind>, i: nat, room: nat, nodes: seq<ExpectationSection>, errors: Errors)
    : Readings<ExpectationSection>
  {
    Readings(
      ExpectationSectionsAt(tokens, i, room, nodes),
      RecoveredLoop(tokens, i, ExpectationSectionLoop(tokens, room), nodes, errors))
  }

  lemma ExpectationSectionsEnd(
    tokens: seq<TokenKind>, i: nat, room: nat, nodes: seq<ExpectationSection>, errors: Errors)
    requires Peek(tokens, i) == RIGHT_BRACE || Peek(tokens, i) == EOF || TestBoundary(Peek(tokens, i))
    ensures Ends(
              ReadExpectationSections(tokens, i, room, nodes, errors), Peek(tokens, i) == RIGHT_BRACE, nodes, i, errors)
  {
    hide ExpectationSectionAt;
    hide TestBoundary;
    NoExpectationSectionAtBoundary(tokens, i, room);
  }

  lemma ExpectationSectionsGoOn(
    tokens: seq<TokenKind>, i: nat, room: nat, nodes: seq<ExpectationSection>, before: Errors,
    node: Option<ExpectationSection>, next: nat, after: Errors)
    requires i < |tokens| && Peek(tokens, i) != EOF
    requires Peek(tokens, i) != RIGHT_BRACE && !TestBoundary(Peek(tokens, i))
    requires Round(Peek(tokens, i), SectionStart(Peek(tokens, i)), ExpectationSectionAt(tokens, i, room),
                   SkipAt(tokens, i, ExpectationSectionStop), node, next, before, after)
    ensures GoesOn(ReadExpectationSections(tokens, i, room, nodes, before),
                   ReadExpectationSections(
                     tokens, next, room, if node.Some? then nodes + [node.value] else nodes, after),
                   before, after)
  {
    hide ExpectationSectionAt;
    hide SkipAt;
    hide TestBoundary;
    hide SectionStart;
  }

  /** What one round of the loop inside a test relies on. */
  lemma TestItemsStep(
    tokens: seq<TokenKind>, i: nat, room: nat, requests: seq<RequestAst>, expectations: seq<ExpectationAst>)
    ensures var whole := TestItemsAt(tokens, i, room, requests, expectations);
            var request, expectation := RequestAt(tokens, i, room), ExpectationAt(tokens, i, room);
            if Peek(tokens, i) == RIGHT_BRACE then
              whole == if requests == [] || expectations == [] then None else Some(Parsed((requests, expectations), i + 1))
            else if Peek(tokens, i) == REQUEST then
              whole == if request.None? || expectations != [] then None
                       else TestItemsAt(tokens, request.value.next, room, requests + [request.value.node], expectations)
            else if Peek(tokens, i) == EXPECT then
              whole == if expectation.None? then None
                       else TestItemsAt(tokens, expectation.value.next, room, requests,
                                        expectations + [expectation.value.node])
            else whole.None?
    ensures Peek(tokens, i) != EOF ==> i < |tokens|
    ensures SuiteBoundary(Peek(tokens, i)) ==> Peek(tokens, i) != REQUEST && Peek(tokens, i) != EXPECT
  {
    hide RequestAt;
    hide ExpectationSectionsAt;
  }

  /** What one round of the loop over contained tests relies on. */
  lemma RecoveredItemsStep(
    tokens: seq<TokenKind>, i: nat, room: nat, requests: seq<RequestAst>, expectations: seq<ExpectationAst>,
    errors: Errors)
    requires i <= |tokens|
    ensures var whole := RecoveredTestItems(tokens, i, room, requests, expectations, errors);
            var kind := Peek(tokens, i);
            var request, expectation := RequestAt(tokens, i, room), ExpectationAt(tokens, i, room);
            if kind == RIGHT_BRACE then
              whole == if requests == [] || expectations == [] then None
                       else Some(Recovered((requests, expectations), i + 1, errors))
            else if kind == EOF || SuiteBoundary(kind) then whole.None?
            else if kind == REQUEST then
              whole == if request.None? || expectations != [] then None
                       else RecoveredTestItems(tokens, request.value.next, room, requests + [request.value.node],
                                               expectations, errors)
            else if kind == EXPECT then
              whole == if expectation.None? then None
                       else RecoveredTestItems(tokens, expectation.value.next, room, requests,
                                               expectations + [expectation.value.node], errors)
            else
              && i < |tokens|
              && whole == RecoveredTestItems(
                            tokens, FirstStop(tokens, i + 1, TestItemStop), room, requests, expectations,
                            errors + [UnexpectedToken(kind)])
  {
    hide RequestAt;
    hide ExpectationAt;
    hide SuiteBoundary;
    hide FirstStop;
  }

  lemma TestsStep(tokens: seq<TokenKind>, i: nat, room: nat, tests: seq<TestAst>, errors: Errors)
    ensures var kind := Peek(tokens, i);
            var whole, recovered := TestsAt(tokens, i, room, tests), RecoveredTests(tokens, i, room, tests, errors);
            var test := TestAt(tokens, i, room);
            if kind == RIGHT_BRACE then
              whole == Some(Parsed(tests, i + 1)) && recovered == Some(Recovered(tests, i, errors))
            else if kind == EOF || OuterBlockBoundary(kind) then whole.None? && recovered.None?
            else if kind != TEST then
              && whole.None?
              && (i <= |tokens| ==>
                    && i < |tokens|
                    && recovered == RecoveredTests(tokens, FirstStop(tokens, i + 1, ContainedTestStop), room, tests,
                                                   errors + [UnexpectedToken(kind)]))
            else if test.None? then whole.None? && recovered.None?
            else
              && whole == TestsAt(tokens, test.value.next, room, tests + [test.value.node])
              && recovered == RecoveredTests(tokens, test.value.next, room, tests + [test.value.node], errors)
  {
    hide TestItemsAt;
  }

  lemma FirstStopAhead(tokens: seq<TokenKind>, i: nat, stops: TokenKind -> bool)
    requires i < |tokens|
    ensures i < FirstStop(tokens, i + 1, stops) <= |tokens|
  {
  }

  /** What one round of the top loop relies on. */
  lemma BlocksStep(
    tokens: seq<TokenKind>, i: nat, room: nat, hasCore: bool, blocks: seq<BlockAst>, errors: Errors)
    ensures var kind := Peek(tokens, i);
            var whole := BlocksAt(tokens, i, room, hasCore, blocks);
            var recovered := RecoveredBlocks(tokens, i, room, hasCore, blocks, errors);
            if kind == EOF then
              && whole == (if blocks == [] then None else Some(blocks))
              && recovered == Some((blocks, if blocks == [] && errors == [] then [EmptySuite] else errors))
            else if !SuiteBoundary(kind) then
              && whole.None?
              && (i <= |tokens| ==>
                    && i < |tokens|
                    && recovered == RecoveredBlocks(tokens, FirstStop(tokens, i + 1, SuiteBoundary), room, hasCore, blocks,
                                                    errors + [UnexpectedToken(kind)]))
            else
              var counted := if kind == CORE && hasCore then errors + [DuplicateCore] else errors;
              var block, recoveredBlock := BlockAt(tokens, i, room), RecoveredBlock(tokens, i, room, counted);
              && (if block.None? || (kind == CORE && hasCore) then whole.None?
                  else whole == BlocksAt(tokens, block.value.next, room, hasCore || kind == CORE, blocks + [block.value.node]))
              && (if recoveredBlock.None? then recovered.None?
                  else recovered == RecoveredBlocks(tokens, recoveredBlock.value.next, room, hasCore || kind == CORE,
                                                    blocks + [recoveredBlock.value.node], recoveredBlock.value.errors))
  {
    hide TestItemsAt;
    hide CoreAt;
    hide PipelineTestsAt;
    hide RecoveredBlock;
  }

  class Parser {
    const tokens: seq<TokenKind>
    var current: nat
    var nestingDepth: nat
    const maxNestingDepth: nat
    var errors: seq<ParserErrorKind>

    /** `Parser::new(tokens).with_max_nesting_depth(limit)`. */
    constructor (tokens: seq<TokenKind>, limit: nat)
      ensures Valid() && this.tokens == tokens && current == 0 && nestingDepth == 0 && errors == []
      ensures maxNestingDepth == if limit > HARD_MAX_NESTING_DEPTH then HARD_MAX_NESTING_DEPTH else limit
    {
      this.tokens := tokens;
      current := 0;
      nestingDepth := 0;
      maxNestingDepth := if limit > HARD_MAX_NESTING_DEPTH then HARD_MAX_NESTING_DEPTH else limit;
      errors := [];
    }

    ghost predicate Valid()
      reads this
    {
      current <= |tokens| && nestingDepth <= maxNestingDepth
    }

    /** What every parsing method keeps: nesting is balanced and the cursor never goes back. */
    ghost predicate Kept(depth: nat, from: nat)
      reads this
    {
      Valid() && nestingDepth == depth && from <= current
    }

    // ---- cursor ----

    function PeekKind(): TokenKind
      reads this
    {
      Peek(tokens, current)
    }

    predicate IsAtEnd()
      reads this
    {
      PeekKind() == EOF
    }

    predicate Check(kind: TokenKind)
      reads this
    {
      PeekKind() == kind
    }

    method Bump()
      requires Valid()
      modifies `current
      ensures Valid() && current == old(current) + if old(IsAtEnd()) then 0 else 1
    {
      if !IsAtEnd() {
        current := current + 1;
      }
    }

    method Take(kind: TokenKind) returns (taken: bool)
      requires Valid() && kind != EOF
      modifies `current
      ensures Valid() && taken == old(Check(kind))
      ensures current == old(current) + if taken then 1 else 0
    {
      taken := Check(kind);
      if taken {
        Bump();
      }
    }

    method PushError(kind: ParserErrorKind)
      modifies `errors
      ensures errors == old(errors) + [kind]
    {
      errors := errors + [kind];
    }

    method Expected()
      modifies `errors
      ensures errors == old(errors) + [if IsAtEnd() then UnexpectedEof else UnexpectedToken(PeekKind())]
    {
      PushError(if IsAtEnd() then UnexpectedEof else UnexpectedToken(PeekKind()));
    }

    method Consume(kind: TokenKind)
      requires Valid() && kind != EOF
      modifies `current, `errors
      ensures Kept(old(nestingDepth), old(current))
      ensures if old(Check(kind)) then current == old(current) + 1 && errors == old(errors)
              else current == old(current) && |errors| == |old(errors)| + 1
    {
      var taken := Take(kind);
      if !taken {
        Expected();
      }
    }

    method SkipOptionalComma()
      requires Valid()
      modifies `current
      ensures Valid() && current == AfterOptionalComma(tokens, old(current))
    {
      var _ := Take(COMMA);
    }

    method TakeContextualIdentifier(word: string) returns (taken: bool)
      requires Valid()
      modifies `current
      ensures Valid() && taken == (old(PeekKind()) == Identifier(word))
      ensures current == old(current) + if taken then 1 else 0
    {
      taken := PeekKind() == Identifier(word);
      if taken {
        Bump();
      }
    }

    method ParseString() returns (text: string)
      requires Valid()
      modifies `current, `errors
      ensures Kept(old(nestingDepth), old(current))
      ensures match StringAt(tokens, old(current))
              case Some(found) => text == found && current == old(current) + 1 && errors == old(errors)
              case None => text == "" && current == old(current) && |errors| == |old(errors)| + 1
    {
      hide Peek;
      if PeekKind().StringLiteral? {
        text := PeekKind().text;
        Bump();
      } else {
        Expected();
        text := "";
      }
    }

    method ObjectKey() returns (key: Option<string>)
      requires Valid()
      modifies `current
      ensures Valid() && key == KeyText(old(PeekKind()))
      ensures current == old(current) + if key.Some? then 1 else 0
    {
      key := KeyText(PeekKind());
      if key.Some? {
        Bump();
      }
    }

    // ---- recovery ----

    method DiscardUnexpectedTerminal()
      requires Valid()
      modifies `current
      ensures Valid() && current == old(current) + if RecoveryBoundary(old(PeekKind())) then 0 else 1
    {
      if !RecoveryBoundary(PeekKind()) {
        Bump();
      }
    }

    /** The loop all synchronization methods share: to the next token of the given kind, or the end. */
    method SkipTo(stops: TokenKind -> bool)
      requires Valid()
      modifies `current
      ensures Valid() && current == FirstStop(tokens, old(current), stops)
    {
      while !IsAtEnd() && !stops(PeekKind())
        invariant Valid() && FirstStop(tokens, current, stops) == FirstStop(tokens, old(current), stops)
        decreases |tokens| - current
      {
        Bump();
      }
    }

    method SkipBalancedContainer()
      requires Valid()
      modifies `current
      ensures Valid() && current == BalancedEnd(tokens, old(current), 1)
    {
      hide Peek;
      var depth := 1;
      while !IsAtEnd() && depth > 0
        invariant Valid() && 0 <= depth
        invariant BalancedEnd(tokens, current, depth) == BalancedEnd(tokens, old(current), 1)
        decreases |tokens| - current
      {
        if Check(LEFT_BRACE) || Check(LEFT_BRACKET) {
          depth := depth + 1;
        } else if Check(RIGHT_BRACE) || Check(RIGHT_BRACKET) {
          depth := depth - 1;
        }
        Bump();
      }
    }

    method EnterNesting() returns (entered: bool)
      requires Valid()
      modifies `nestingDepth, `errors
      ensures Valid() && entered == (old(nestingDepth) < maxNestingDepth)
      ensures nestingDepth == old(nestingDepth) + if entered then 1 else 0
      ensures errors == if entered then old(errors) else old(errors) + [NestingLimitExceeded(maxNestingDepth)]
    {
      if nestingDepth >= maxNestingDepth {
        PushError(NestingLimitExceeded(maxNestingDepth));
        return false;
      }
      nestingDepth := nestingDepth + 1;
      return true;
    }

    method ExitNesting()
      requires Valid()
      modifies `nestingDepth
      ensures Valid() && nestingDepth == if old(nestingDepth) == 0 then 0 else old(nestingDepth) - 1
    {
      if nestingDepth > 0 {
        nestingDepth := nestingDepth - 1;
      }
    }

    // ---- values ----

    /** A value, or nothing if none starts here; the caller reports that. */
    method ParseValue() returns (value: Option<ValueAst>)
      requires Valid()
      modifies this
      ensures Kept(old(nestingDepth), old(current)) && (value.Some? ==> old(current) < current)
      ensures match ValueAt(tokens, old(current), old(maxNestingDepth - nestingDepth))
              case Some(parsed) => errors == old(errors) && value == Some(parsed.node) && current == parsed.next
              case None =>
                |errors| > |old(errors)| || (value.None? && errors == old(errors) && current == old(current))
      ensures !StartsValue(old(PeekKind())) ==> value.None? && errors == old(errors) && current == old(current)
      decreases |tokens| - current, 3
    {
      hide Peek;
      value := ScalarOf(PeekKind());
      if value.Some? {
        Bump();
      } else if Check(LEFT_BRACKET) {
        var items := ParseArrayValue();
        value := Some(ArrayAst(items));
      } else if Check(LEFT_BRACE) {
        var entries := ParseObjectValue();
        value := Some(ObjectAst(entries));
      }
    }

    method ParseObjectValue() returns (entries: Entries<ValueAst>)
      requires Valid()
      modifies this
      ensures Kept(old(nestingDepth), old(current))
      ensures Parses(
                ObjectAt(tokens, old(current), old(maxNestingDepth - nestingDepth)), entries, current, old(errors),
                errors)
      ensures old(Check(LEFT_BRACE)) ==> old(current) < current
      decreases |tokens| - current, 2
    {
      hide Peek;
      hide EntriesAt;
      hide EntryLoop;
      hide RecoveredLoop;
      hide Recovers;
      hide BalancedEnd;
      var found := Take(LEFT_BRACE);
      if !found {
        Expected();
        return [];
      }
      var entered := EnterNesting();
      if !entered {
        SkipBalancedContainer();
        return [];
      }
      entries := ParseObjectValueEntries();
      ExitNesting();
    }

    /** The entries of an object and its closing brace. */
    method ParseObjectValueEntries() returns (entries: Entries<ValueAst>)
      requires Valid()
      modifies this
      ensures Kept(old(nestingDepth), old(current))
      ensures ReadAs(
                ReadEntries(tokens, old(current), old(maxNestingDepth - nestingDepth), [], old(errors)),
                entries, current, old(errors), errors)
      decreases |tokens| - current, 5
    {
      hide Peek;
      hide ReadEntries;
      hide ContainerBoundary;
      hide StartsKey;
      hide EntryAt;
      hide ResumeAt;
      hide Round;
      entries := [];
      ghost var room := maxNestingDepth - nestingDepth;
      ghost var whole := ReadEntries(tokens, current, room, [], errors);
      while !IsAtEnd() && !Check(RIGHT_BRACE) && !ContainerBoundary(PeekKind())
        invariant Kept(old(nestingDepth), old(current))
        invariant GoesOn(whole, ReadEntries(tokens, current, room, entries, errors), old(errors), errors)
        decreases |tokens| - current
      {
        ghost var i, before := current, errors;
        var entry := ParseObjectEntry();
        EntriesGoOn(tokens, i, room, entries, before, entry, current, errors);
        if entry.Some? {
          entries := entries + [entry.value];
        }
      }
      EntriesEnd(tokens, current, room, entries, errors);
      Consume(RIGHT_BRACE);
    }

    /** One round of that loop: an entry, or recovery to the next one. */
    method ParseObjectEntry() returns (entry: Option<(string, ValueAst)>)
      requires Valid() && !IsAtEnd() && !Check(RIGHT_BRACE) && !ContainerBoundary(PeekKind())
      modifies this
      ensures Kept(old(nestingDepth), old(current)) && old(current) < current
      ensures Round(
                old(PeekKind()), StartsKey(old(PeekKind())),
                EntryAt(tokens, old(current), old(maxNestingDepth - nestingDepth)),
                ResumeAt(tokens, old(current), EntryStop), entry, current, old(errors), errors)
      decreases |tokens| - current, 4
    {
      hide Peek;
      hide ResumeAt;
      hide EntryTailAt;
      hide KeyText;
      hide ContainerBoundary;
      EntryCases(tokens, current, maxNestingDepth - nestingDepth);
      hide EntryAt;
      var key := ObjectKey();
      if key.None? {
        RecoverFromBadKey();
        return None;
      }
      entry := ParseEntryTail(key.value);
    }

    /** An entry behind its key or name: the equals sign, the value and the optional comma. */
    method ParseEntryTail(key: string) returns (entry: Option<(string, ValueAst)>)
      requires Valid()
      modifies this
      ensures Kept(old(nestingDepth), old(current))
      ensures ParsesItem(
                EntryTailAt(tokens, old(current), key, old(maxNestingDepth - nestingDepth)), entry, current,
                old(errors), errors)
      ensures old(!IsAtEnd() && !Check(RIGHT_BRACE) && !ContainerBoundary(PeekKind())) ==> old(current) < current
      decreases |tokens| - current, 4
    {
      hide Peek;
      hide ValueAt;
      hide AfterOptionalComma;
      hide ContainerBoundary;
      hide StartsValue;
      hide FirstStop;
      Consume(EQUAL);
      var value := ParseValue();
      if value.None? {
        Expected();
        SynchronizeObjectEntry();
        return None;
      }
      SkipOptionalComma();
      return Some((key, value.value));
    }

    method RecoverFromBadKey()
      requires Valid() && !IsAtEnd() && !Check(RIGHT_BRACE) && !ContainerBoundary(PeekKind())
      modifies `current, `errors
      ensures Kept(old(nestingDepth), old(current)) && old(current) < current
      ensures errors == old(errors) + [UnexpectedToken(old(PeekKind()))]
      ensures current == ResumeAt(tokens, old(current), EntryStop)
    {
      Expected();
      DiscardUnexpectedTerminal();
      SynchronizeObjectEntry();
    }

    method ParseArrayValue() returns (items: seq<ValueAst>)
      requires Valid()
      modifies this
      ensures Kept(old(nestingDepth), old(current))
      ensures Parses(
                ArrayAt(tokens, old(current), old(maxNestingDepth - nestingDepth)), items, current, old(errors),
                errors)
      ensures old(Check(LEFT_BRACKET)) ==> old(current) < current
      decreases |tokens| - current, 2
    {
      hide Peek;
      hide ItemsAt;
      hide ItemLoop;
      hide RecoveredLoop;
      hide Recovers;
      hide BalancedEnd;
      var found := Take(LEFT_BRACKET);
      if !found {
        Expected();
        return [];
      }
      var entered := EnterNesting();
      if !entered {
        SkipBalancedContainer();
        return [];
      }
      items := ParseArrayItems();
      ExitNesting();
    }

    /** The items of an array and its closing bracket. */
    method ParseArrayItems() returns (items: seq<ValueAst>)
      requires Valid()
      modifies this
      ensures Kept(old(nestingDepth), old(current))
      ensures ReadAs(
                ReadItems(tokens, old(current), old(maxNestingDepth - nestingDepth), [], old(errors)),
                items, current, old(errors), errors)
      decreases |tokens| - current, 5
    {
      hide Peek;
      hide ReadItems;
      hide ContainerBoundary;
      hide StartsValue;
      hide ItemAt;
      hide ResumeAt;
      hide Round;
      items := [];
      ghost var room := maxNestingDepth - nestingDepth;
      ghost var whole := ReadItems(tokens, current, room, [], errors);
      while !IsAtEnd() && !Check(RIGHT_BRACKET) && !ContainerBoundary(PeekKind())
        invariant Kept(old(nestingDepth), old(current))
        invariant GoesOn(whole, ReadItems(tokens, current, room, items, errors), old(errors), errors)
        decreases |tokens| - current
      {
        ghost var i, before := current, errors;
        var item := ParseArrayItem();
        ItemsGoOn(tokens, i, room, items, before, item, current, errors);
        if item.Some? {
          items := items + [item.value];
        }
      }
      ItemsEnd(tokens, current, room, items, errors);
      Consume(RIGHT_BRACKET);
    }

    /** One round of that loop: an item with its separator, or recovery to the next one. */
    method ParseArrayItem() returns (item: Option<ValueAst>)
      requires Valid() && !IsAtEnd() && !Check(RIGHT_BRACKET) && !ContainerBoundary(PeekKind())
      modifies this
      ensures Kept(old(nestingDepth), old(current))
      ensures Round(
                old(PeekKind()), StartsValue(old(PeekKind())),
                ItemAt(tokens, old(current), old(maxNestingDepth - nestingDepth)),
                ResumeAt(tokens, old(current), ItemStop), item, current, old(errors), errors)
      ensures old(current) < current
      decreases |tokens| - current, 4
    {
      hide Peek;
      hide ValueAt;
      hide ContainerBoundary;
      hide RecoveryBoundary;
      hide ResumeAt;
      hide StartsValue;
      item := ParseValue();
      if item.None? {
        RecoverFromBadItem();
        return;
      }
      var separated := Take(COMMA);
      if !separated && !Check(RIGHT_BRACKET) {
        Expected();
        SynchronizeArrayItem();
      }
    }

    /** Without progress only at the end or in front of an enclosing construct, where the last item has led. */
    method RecoverFromBadItem()
      requires Valid()
      modifies `current, `errors
      ensures Kept(old(nestingDepth), old(current)) && |errors| > |old(errors)|
      ensures old(!IsAtEnd()) ==>
                && errors == old(errors) + [UnexpectedToken(old(PeekKind()))]
                && current == ResumeAt(tokens, old(current), ItemStop)
      ensures old(!IsAtEnd() && !Check(RIGHT_BRACKET) && !ContainerBoundary(PeekKind())) ==> old(current) < current
    {
      Expected();
      DiscardUnexpectedTerminal();
      SynchronizeArrayItem();
    }

    /** To the next entry: behind a comma, or in front of the end of the object or of an enclosing construct. */
    method SynchronizeObjectEntry()
      requires Valid()
      modifies `current
      ensures Valid() && current == AfterOptionalComma(tokens, FirstStop(tokens, old(current), EntryStop))
      ensures old(!IsAtEnd() && !Check(RIGHT_BRACE) && !ContainerBoundary(PeekKind())) ==> old(current) < current
    {
      SkipTo(EntryStop);
      SkipOptionalComma();
    }

    method SynchronizeArrayItem()
      requires Valid()
      modifies `current
      ensures Valid() && current == AfterOptionalComma(tokens, FirstStop(tokens, old(current), ItemStop))
      ensures old(!IsAtEnd() && !Check(RIGHT_BRACKET) && !ContainerBoundary(PeekKind())) ==> old(current) < current
    {
      SkipTo(ItemStop);
      SkipOptionalComma();
    }

    // ---- requests ----

    method ParseRequest() returns (request: RequestAst)
      requires Valid()
      modifies this
      ensures Kept(old(nestingDepth), old(current)) && (old(Check(REQUEST)) ==> old(current) < current)
      ensures Parses(
                RequestAt(tokens, old(current), old(maxNestingDepth - nestingDepth)), request, current, old(errors), errors)
    {
      hide Peek;
      hide RequestOptionsAt;
      Consume(REQUEST);
      var verb := ParseHttpMethod();
      var path := ParseString();
      var sections := ParseRequestOptions();
      request := RequestAst(verb, path, sections);
    }

    method ParseHttpMethod() returns (verb: HttpMethod)
      requires Valid()
      modifies `current, `errors
      ensures Kept(old(nestingDepth), old(current))
      ensures if old(PeekKind()).Verb? then verb == old(PeekKind()).verb && current == old(current) + 1 && errors == old(errors)
              else |errors| > |old(errors)|
    {
      hide Peek;
      if PeekKind().Verb? {
        verb := PeekKind().verb;
        Bump();
      } else {
        Expected();
        if !PeekKind().StringLiteral? {
          DiscardUnexpectedTerminal();
        }
        verb := GET;
      }
    }

    method ParseRequestOptions() returns (sections: seq<RequestSection>)
      requires Valid()
      modifies this
      ensures Kept(old(nestingDepth), old(current))
      ensures Parses(
                RequestOptionsAt(tokens, old(current), old(maxNestingDepth - nestingDepth)), sections, current,
                old(errors), errors)
    {
      hide Peek;
      hide RequestSectionsAt;
      hide RequestSectionLoop;
      hide RecoveredLoop;
      hide Recovers;
      sections := [];
      var found := Take(LEFT_BRACE);
      if found {
        sections := ParseRequestSections();
      }
    }

    /** The sections of a request and the closing brace. */
    method ParseRequestSections() returns (sections: seq<RequestSection>)
      requires Valid()
      modifies this
      ensures Kept(old(nestingDepth), old(current))
      ensures ReadAs(
                ReadRequestSections(tokens, old(current), old(maxNestingDepth - nestingDepth), [], old(errors)),
                sections, current, old(errors), errors)
    {
      hide Peek;
      hide ReadRequestSections;
      hide TestBoundary;
      hide StartsRequestSection;
      hide RequestSectionAt;
      hide SkipAt;
      hide Round;
      sections := [];
      ghost var room := maxNestingDepth - nestingDepth;
      ghost var whole := ReadRequestSections(tokens, current, room, [], errors);
      while !IsAtEnd() && !Check(RIGHT_BRACE) && !TestBoundary(PeekKind())
        invariant Kept(old(nestingDepth), old(current))
        invariant GoesOn(whole, ReadRequestSections(tokens, current, room, sections, errors), old(errors), errors)
        decreases |tokens| - current
      {
        ghost var i, before := current, errors;
        var section := ParseRequestSection();
        RequestSectionsGoOn(tokens, i, room, sections, before, section, current, errors);
        if section.Some? {
          sections := sections + [section.value];
        }
      }
      RequestSectionsEnd(tokens, current, room, sections, errors);
      Consume(RIGHT_BRACE);
    }

    method ParseRequestSection() returns (section: Option<RequestSection>)
      requires Valid() && !IsAtEnd() && !Check(RIGHT_BRACE) && !TestBoundary(PeekKind())
      modifies this
      ensures Kept(old(nestingDepth), old(current)) && old(current) < current
      ensures Round(
                old(PeekKind()), StartsRequestSection(old(PeekKind())),
                RequestSectionAt(tokens, old(current), old(maxNestingDepth - nestingDepth)),
                SkipAt(tokens, old(current), RequestSectionStop), section, current, old(errors), errors)
    {
      hide Peek;
      hide RequestHeadersSectionAt;
      hide TestBoundary;
      hide ObjectAt;
      if Check(HEADERS) {
        var entries := ParseRequestHeaders();
        section := Some(RequestHeaders(entries));
      } else if Check(QUERY) {
        var entries := ParseKeywordObject(QUERY);
        section := Some(RequestQuery(entries));
      } else if Check(BODY) {
        var entries := ParseKeywordObject(BODY);
        section := Some(RequestBodySection(entries));
      } else {
        Expected();
        Bump();
        SkipTo(RequestSectionStop);
        section := None;
      }
    }

    method ParseRequestHeaders() returns (entries: Entries<ValueAst>)
      requires Valid()
      modifies this
      ensures Kept(old(nestingDepth), old(current)) && (old(Check(HEADERS)) ==> old(current) < current)
      ensures Parses(
                RequestHeadersSectionAt(tokens, old(current), old(maxNestingDepth - nestingDepth)), entries, current,
                old(errors), errors)
    {
      hide Peek;
      hide RequestHeaderAt;
      hide ContainerBoundary;
      ghost var room := maxNestingDepth - nestingDepth;
      ghost var whole := RequestHeadersSectionAt(tokens, current, room);
      Consume(HEADERS);
      Consume(LEFT_BRACE);
      entries := [];
      while !IsAtEnd() && !Check(RIGHT_BRACE) && !ContainerBoundary(PeekKind())
        invariant Kept(old(nestingDepth), old(current)) && (old(Check(HEADERS)) ==> old(current) < current)
        invariant Continues(whole, RequestHeadersAt(tokens, current, room, entries), old(errors), errors)
        decreases |tokens| - current
      {
        var entry := ParseRequestHeader();
        if entry.Some? {
          entries := entries + [entry.value];
        }
      }
      NoRequestHeaderAtBoundary(tokens, current, room);
      Consume(RIGHT_BRACE);
    }

    method ParseRequestHeader() returns (entry: Option<(string, ValueAst)>)
      requires Valid() && !IsAtEnd() && !Check(RIGHT_BRACE) && !ContainerBoundary(PeekKind())
      modifies this
      ensures Kept(old(nestingDepth), old(current)) && old(current) < current
      ensures ParsesItem(
                RequestHeaderAt(tokens, old(current), old(maxNestingDepth - nestingDepth)), entry, current,
                old(errors), errors)
    {
      hide Peek;
      hide EntryTailAt;
      hide StringAt;
      hide ContainerBoundary;
      RequestHeaderCases(tokens, current, maxNestingDepth - nestingDepth);
      hide RequestHeaderAt;
      var name := ParseString();
      entry := ParseEntryTail(name);
    }

    /** The query parameters or the body of a request. */
    method ParseKeywordObject(keyword: TokenKind) returns (entries: Entries<ValueAst>)
      requires Valid() && keyword != EOF
      modifies this
      ensures Kept(old(nestingDepth), old(current)) && (old(Check(keyword)) ==> old(current) < current)
      ensures Parses(
                KeywordObjectAt(tokens, old(current), keyword, old(maxNestingDepth - nestingDepth)), entries, current,
                old(errors), errors)
    {
      hide Peek;
      hide ObjectAt;
      Consume(keyword);
      entries := ParseObjectValue();
    }

    // ---- expectations ----

    method ParseExpectation() returns (expectation: ExpectationAst)
      requires Valid()
      modifies this
      ensures Kept(old(nestingDepth), old(current)) && (old(Check(EXPECT)) ==> old(current) < current)
      ensures Parses(
                ExpectationAt(tokens, old(current), old(maxNestingDepth - nestingDepth)), expectation, current,
                old(errors), errors)
    {
      hide Peek;
      hide ExpectationSectionsAt;
      hide ExpectationSectionLoop;
      hide RecoveredLoop;
      hide Recovers;
      Consume(EXPECT);
      Consume(LEFT_BRACE);
      var sections := ParseExpectationSections();
      expectation := ExpectationAst(sections);
    }

    /** The sections of an expectation and the closing brace. */
    method ParseExpectationSections() returns (sections: seq<ExpectationSection>)
      requires Valid()
      modifies this
      ensures Kept(old(nestingDepth), old(current))
      ensures ReadAs(
                ReadExpectationSections(tokens, old(current), old(maxNestingDepth - nestingDepth), [], old(errors)),
                sections, current, old(errors), errors)
    {
      hide Peek;
      hide ReadExpectationSections;
      hide TestBoundary;
      hide SectionStart;
      hide ExpectationSectionAt;
      hide SkipAt;
      hide Round;
      sections := [];
      ghost var room := maxNestingDepth - nestingDepth;
      ghost var whole := ReadExpectationSections(tokens, current, room, [], errors);
      while !IsAtEnd() && !Check(RIGHT_BRACE) && !TestBoundary(PeekKind())
        invariant Kept(old(nestingDepth), old(current))
        invariant GoesOn(whole, ReadExpectationSections(tokens, current, room, sections, errors), old(errors), errors)
        decreases |tokens| - current
      {
        ghost var i, before := current, errors;
        var section := ParseExpectationSection();
        ExpectationSectionsGoOn(tokens, i, room, sections, before, section, current, errors);
        if section.Some? {
          sections := sections + [section.value];
        }
      }
      ExpectationSectionsEnd(tokens, current, room, sections, errors);
      Consume(RIGHT_BRACE);
    }

    method ParseExpectationSection() returns (section: Option<ExpectationSection>)
      requires Valid() && !IsAtEnd() && !Check(RIGHT_BRACE) && !TestBoundary(PeekKind())
      modifies this
      ensures Kept(old(nestingDepth), old(current)) && old(current) < current
      ensures Round(
                old(PeekKind()), SectionStart(old(PeekKind())),
                ExpectationSectionAt(tokens, old(current), old(maxNestingDepth - nestingDepth)),
                SkipAt(tokens, old(current), ExpectationSectionStop), section, current, old(errors), errors)
    {
      hide Peek;
      hide StatusAt;
      hide ResponseHeadersSectionAt;
      hide TestBoundary;
      hide BodyContentAt;
      if Check(STATUS) {
        var status := ParseStatusAssertion();
        section := Some(StatusSection(status));
      } else if Check(HEADERS) {
        var entries := ParseResponseHeaders();
        section := Some(HeadersSection(entries));
      } else if Check(BODY) {
        var body := ParseBodyAssertion();
        section := Some(BodySection(body));
      } else {
        Expected();
        Bump();
        SkipTo(ExpectationSectionStop);
        section := None;
      }
    }

    method ParseStatusAssertion() returns (status: I64)
      requires Valid()
      modifies this
      ensures Kept(old(nestingDepth), old(current)) && (old(Check(STATUS)) ==> old(current) < current)
      ensures Parses(StatusAt(tokens, old(current)), status, current, old(errors), errors)
    {
      hide Peek;
      hide RecoveryBoundary;
      Consume(STATUS);
      Consume(EQUAL);
      if PeekKind().IntegerLiteral? {
        status := PeekKind().n;
        Bump();
      } else {
        Expected();
        DiscardUnexpectedTerminal();
        status := 0;
      }
      SkipOptionalComma();
    }

    method ParseResponseHeaders() returns (entries: seq<ResponseHeaderAst>)
      requires Valid()
      modifies this
      ensures Kept(old(nestingDepth), old(current)) && (old(Check(HEADERS)) ==> old(current) < current)
      ensures Parses(ResponseHeadersSectionAt(tokens, old(current)), entries, current, old(errors), errors)
    {
      hide Peek;
      hide ResponseHeaderAt;
      hide TestBoundary;
      hide SectionStart;
      ghost var whole := ResponseHeadersSectionAt(tokens, current);
      Consume(HEADERS);
      Consume(LEFT_BRACE);
      entries := [];
      while !IsAtEnd() && !Check(RIGHT_BRACE) && !SectionStart(PeekKind()) && !TestBoundary(PeekKind())
        invariant Kept(old(nestingDepth), old(current)) && (old(Check(HEADERS)) ==> old(current) < current)
        invariant Continues(whole, ResponseHeadersAt(tokens, current, entries), old(errors), errors)
        decreases |tokens| - current
      {
        var entry := ParseResponseHeader();
        if entry.Some? {
          entries := entries + [entry.value];
        }
      }
      NoResponseHeaderAtBoundary(tokens, current);
      Consume(RIGHT_BRACE);
    }

    method ParseResponseHeader() returns (entry: Option<ResponseHeaderAst>)
      requires Valid() && !IsAtEnd() && !Check(RIGHT_BRACE) && !TestBoundary(PeekKind())
      modifies this
      ensures Kept(old(nestingDepth), old(current)) && old(current) < current
      ensures ParsesItem(ResponseHeaderAt(tokens, old(current)), entry, current, old(errors), errors)
    {
      hide Peek;
      hide AfterOptionalComma;
      hide TestBoundary;
      ResponseHeaderCases(tokens, current);
      hide ResponseHeaderAt;
      var name := ParseString();
      entry := ParseResponseHeaderTail(name);
      if entry.None? {
        SynchronizeExpectationEntry();
      } else {
        SkipOptionalComma();
      }
    }

    /** What is asserted of a response header, behind its name. */
    method ParseResponseHeaderTail(name: string) returns (entry: Option<ResponseHeaderAst>)
      requires Valid()
      modifies this
      ensures Kept(old(nestingDepth), old(current))
      ensures ParsesItem(HeaderTailAt(tokens, old(current), name), entry, current, old(errors), errors)
      ensures entry.Some? ==> old(current) < current
    {
      hide Peek;
      var typed := Take(COLON);
      if typed {
        Consume(TYPE_STRING);
        return Some(ExistsAst(name));
      }
      var compared := Take(EQUAL);
      if compared {
        var text := ParseString();
        return Some(ExactAst(name, text));
      }
      var searched := TakeContextualIdentifier("contains");
      if searched {
        var text := ParseString();
        return Some(ContainsAst(name, text));
      }
      Expected();
      return None;
    }

    method ParseBodyAssertion() returns (body: BodyAssertionAst)
      requires Valid()
      modifies this
      ensures Kept(old(nestingDepth), old(current)) && (old(Check(BODY)) ==> old(current) < current)
      ensures Parses(
                BodyAt(tokens, old(current), old(maxNestingDepth - nestingDepth)), body, current, old(errors), errors)
    {
      hide Peek;
      hide BodyContentAt;
      Consume(BODY);
      body := ParseBodyContent();
    }

    method ParseBodyContent() returns (body: BodyAssertionAst)
      requires Valid()
      modifies this
      ensures Kept(old(nestingDepth), old(current))
      ensures Parses(
                BodyContentAt(tokens, old(current), old(maxNestingDepth - nestingDepth)), body, current,
                old(errors), errors)
    {
      hide Peek;
      hide BodyTextAt;
      hide AssertionAt;
      hide AfterOptionalComma;
      BodyCases(tokens, current, maxNestingDepth - nestingDepth);
      hide BodyContentAt;
      var empty := TakeContextualIdentifier("empty");
      if empty {
        SkipOptionalComma();
        return EmptyBody;
      }
      var compared := Take(EQUAL);
      if compared {
        var text := ParseBodyText();
        return TextExactBody(text);
      }
      var searched := TakeContextualIdentifier("contains");
      if searched {
        var text := ParseBodyText();
        return TextContainsBody(text);
      }
      var exact := Take(EXACT);
      var shape := ParseObjectAssertion(if exact then MatchExact else MatchPartial);
      return ObjectBody(shape);
    }

    method ParseBodyText() returns (text: string)
      requires Valid()
      modifies this
      ensures Kept(old(nestingDepth), old(current))
      ensures Parses(BodyTextAt(tokens, old(current)), text, current, old(errors), errors)
    {
      hide Peek;
      text := ParseString();
      SkipOptionalComma();
    }

    method ParseObjectAssertion(mode: MatchMode) returns (a: ObjectAssertionAst)
      requires Valid()
      modifies this
      ensures Kept(old(nestingDepth), old(current))
      ensures Parses(
                AssertionAt(tokens, old(current), mode, old(maxNestingDepth - nestingDepth)), a, current,
                old(errors), errors)
      decreases |tokens| - current, 2
    {
      hide Peek;
      hide FieldsAt;
      hide FieldLoop;
      hide RecoveredLoop;
      hide Recovers;
      hide BalancedEnd;
      var found := Take(LEFT_BRACE);
      if !found {
        Expected();
        return ObjectAssertionAst(mode, []);
      }
      var entered := EnterNesting();
      if !entered {
        SkipBalancedContainer();
        return ObjectAssertionAst(mode, []);
      }
      var fields := ParseFields();
      ExitNesting();
      a := ObjectAssertionAst(mode, fields);
    }

    /** The fields of an object assertion and its closing brace. */
    method ParseFields() returns (fields: seq<FieldAssertionAst>)
      requires Valid()
      modifies this
      ensures Kept(old(nestingDepth), old(current))
      ensures ReadAs(
                ReadFields(tokens, old(current), old(maxNestingDepth - nestingDepth), [], old(errors)),
                fields, current, old(errors), errors)
      decreases |tokens| - current, 6
    {
      hide Peek;
      hide ReadFields;
      hide ContainerBoundary;
      hide StartsKey;
      hide FieldItemAt;
      hide ResumeAt;
      hide Round;
      fields := [];
      ghost var room := maxNestingDepth - nestingDepth;
      ghost var whole := ReadFields(tokens, current, room, [], errors);
      while !IsAtEnd() && !Check(RIGHT_BRACE) && !ContainerBoundary(PeekKind())
        invariant Kept(old(nestingDepth), old(current))
        invariant GoesOn(whole, ReadFields(tokens, current, room, fields, errors), old(errors), errors)
        decreases |tokens| - current
      {
        ghost var i, before := current, errors;
        var field := ParseFieldItem();
        FieldsGoOn(tokens, i, room, fields, before, field, current, errors);
        if field.Some? {
          fields := fields + [field.value];
        }
      }
      FieldsEnd(tokens, current, room, fields, errors);
      Consume(RIGHT_BRACE);
    }

    /** One round of that loop: a field with its comma, or recovery to the next one. */
    method ParseFieldItem() returns (field: Option<FieldAssertionAst>)
      requires Valid() && !IsAtEnd() && !Check(RIGHT_BRACE) && !ContainerBoundary(PeekKind())
      modifies this
      ensures Kept(old(nestingDepth), old(current)) && old(current) < current
      ensures Round(
                old(PeekKind()), StartsKey(old(PeekKind())),
                FieldItemAt(tokens, old(current), old(maxNestingDepth - nestingDepth)),
                ResumeAt(tokens, old(current), AssertionStop), field, current, old(errors), errors)
      decreases |tokens| - current, 5
    {
      hide Peek;
      hide FieldAt;
      hide AfterOptionalComma;
      hide KeyText;
      hide FirstStop;
      field := ParseFieldAssertion();
      if field.Some? {
        SkipOptionalComma();
      } else {
        SynchronizeExpectationEntry();
      }
    }

    method ParseFieldAssertion() returns (field: Option<FieldAssertionAst>)
      requires Valid()
      modifies this
      ensures Kept(old(nestingDepth), old(current)) && (field.Some? ==> old(current) < current)
      ensures ParsesItem(
                FieldAt(tokens, old(current), old(maxNestingDepth - nestingDepth)), field, current, old(errors), errors)
      ensures old(!IsAtEnd()) && !StartsKey(old(PeekKind())) ==>
                && field.None? && errors == old(errors) + [UnexpectedToken(old(PeekKind()))]
                && current == old(current) + if RecoveryBoundary(old(PeekKind())) then 0 else 1
      decreases |tokens| - current, 4
    {
      hide Peek;
      hide KeyText;
      hide FieldTypeAt;
      hide ComparisonAt;
      hide CaptureAt;
      hide RecoveryBoundary;
      FieldCases(tokens, current, maxNestingDepth - nestingDepth);
      hide FieldAt;
      var name := ObjectKey();
      if name.None? {
        Expected();
        DiscardUnexpectedTerminal();
        return None;
      }
      var expectedType := ParseFieldType();
      NoComparisonAtEnd(tokens, current, maxNestingDepth - nestingDepth);
      var expectedValue, nested := ParseComparison(expectedType);
      var capture := ParseCapture(expectedType);
      if expectedType.None? && expectedValue.None? && nested.None? {
        PushError(MissingFieldAssertion);
      }
      return Some(FieldAssertionAst(name.value, expectedType, expectedValue, nested, capture));
    }

    method ParseFieldType() returns (expectedType: Option<ExpectedType>)
      requires Valid()
      modifies `current, `errors
      ensures Kept(old(nestingDepth), old(current))
      ensures FieldTypeAt(tokens, old(current)).Some? ==>
                && expectedType == FieldTypeAt(tokens, old(current)).value.node
                && current == FieldTypeAt(tokens, old(current)).value.next && errors == old(errors)
      ensures FieldTypeAt(tokens, old(current)).None? ==>
                expectedType.None? && (|errors| > |old(errors)| || (errors == old(errors) && current == |tokens|))
    {
      hide TypeOf;
      hide RecoveryBoundary;
      expectedType := None;
      var typed := Take(COLON);
      if typed && current < |tokens| {
        expectedType := TypeOf(PeekKind());
        if expectedType.Some? {
          NoTypeAtEnd();
          Bump();
        } else {
          Expected();
          DiscardUnexpectedTerminal();
        }
      } else {
        NoTypeAtEnd();
      }
    }

    method ParseComparison(expectedType: Option<ExpectedType>)
      returns (expectedValue: Option<ValueAst>, nested: Option<ObjectAssertionAst>)
      requires Valid()
      modifies this
      ensures Kept(old(nestingDepth), old(current))
      ensures Parses(
                ComparisonAt(tokens, old(current), expectedType, old(maxNestingDepth - nestingDepth)),
                (expectedValue, nested), current, old(errors), errors)
      decreases |tokens| - current, 3
    {
      hide Peek;
      hide ValueAt;
      hide AssertionAt;
      expectedValue, nested := None, None;
      var compared := Take(EQUAL);
      if compared {
        expectedValue := ParseValue();
        if expectedValue.None? {
          Expected();
        }
      } else if expectedType == Some(TObject) && Check(LEFT_BRACE) {
        var a := ParseObjectAssertion(MatchPartial);
        nested := Some(a);
      }
    }

    method ParseCapture(expectedType: Option<ExpectedType>) returns (capture: Option<string>)
      requires Valid()
      modifies `current, `errors
      ensures Kept(old(nestingDepth), old(current))
      ensures Parses(CaptureAt(tokens, old(current), expectedType), capture, current, old(errors), errors)
    {
      hide Peek;
      hide RecoveryBoundary;
      var captured := Take(ARROW);
      if !captured {
        return None;
      }
      if expectedType.None? {
        PushError(CaptureRequiresType);
      }
      if PeekKind().Identifier? {
        capture := Some(PeekKind().name);
        Bump();
      } else {
        Expected();
        DiscardUnexpectedTerminal();
        capture := Some("");
      }
    }

    method SynchronizeExpectationEntry()
      requires Valid()
      modifies `current
      ensures Valid() && current == AfterOptionalComma(tokens, FirstStop(tokens, old(current), AssertionStop))
      ensures old(!IsAtEnd() && !Check(RIGHT_BRACE) && !TestBoundary(PeekKind())) ==> old(current) < current
    {
      SkipTo(AssertionStop);
      SkipOptionalComma();
    }

    // ---- tests and suites ----

    method ParseTest() returns (test: TestAst)
      requires Valid()
      modifies this
      ensures Kept(old(nestingDepth), old(current)) && (old(Check(TEST)) ==> old(current) < current)
      ensures Parses(
                TestAt(tokens, old(current), old(maxNestingDepth - nestingDepth)), test, current, old(errors), errors)
    {
      hide Peek;
      hide TestItemsAt;
      hide RecoveredTestItems;
      hide Recovers;
      Consume(TEST);
      var name := ParseString();
      Consume(LEFT_BRACE);
      var requests, expectations := ParseTestItems();
      test := TestAst(name, requests, expectations);
    }

    /** Requests and expectations of a test and its closing brace. */
    method ParseTestItems() returns (requests: seq<RequestAst>, expectations: seq<ExpectationAst>)
      requires Valid()
      modifies this
      ensures Kept(old(nestingDepth), old(current))
      ensures Parses(
                TestItemsAt(tokens, old(current), old(maxNestingDepth - nestingDepth), [], []),
                (requests, expectations), current, old(errors), errors)
      ensures Recovers(
                RecoveredTestItems(tokens, old(current), old(maxNestingDepth - nestingDepth), [], [], old(errors)),
                (requests, expectations), current, errors)
    {
      hide Peek;
      hide TestItemsAt;
      hide RecoveredTestItems;
      hide RequestAt;
      hide ExpectationAt;
      hide FirstStop;
      hide SuiteBoundary;
      requests, expectations := [], [];
      var sawExpectation := false;
      ghost var room := maxNestingDepth - nestingDepth;
      ghost var whole := TestItemsAt(tokens, current, room, [], []);
      ghost var recovered := RecoveredTestItems(tokens, current, room, [], [], errors);
      while !IsAtEnd() && !Check(RIGHT_BRACE) && !SuiteBoundary(PeekKind())
        invariant Kept(old(nestingDepth), old(current)) && sawExpectation == (expectations != [])
        invariant Continues(whole, TestItemsAt(tokens, current, room, requests, expectations), old(errors), errors)
        invariant recovered.Some? ==>
                    recovered == RecoveredTestItems(tokens, current, room, requests, expectations, errors)
        decreases |tokens| - current
      {
        requests, expectations, sawExpectation := ParseTestItem(requests, expectations, sawExpectation);
      }
      TestItemsStep(tokens, current, room, requests, expectations);
      RecoveredItemsStep(tokens, current, room, requests, expectations, errors);
      if requests == [] {
        PushError(MissingRequest);
      }
      if expectations == [] {
        PushError(MissingExpectation);
      }
      Consume(RIGHT_BRACE);
    }

    /** One round of that loop: a request, an expectation, or recovery to the next one. */
    method ParseTestItem(requests: seq<RequestAst>, expectations: seq<ExpectationAst>, sawExpectation: bool)
      returns (moreRequests: seq<RequestAst>, moreExpectations: seq<ExpectationAst>, saw: bool)
      requires Valid() && !IsAtEnd() && !Check(RIGHT_BRACE) && !SuiteBoundary(PeekKind())
      requires sawExpectation == (expectations != [])
      modifies this
      ensures Kept(old(nestingDepth), old(current)) && old(current) < current && saw == (moreExpectations != [])
      ensures Continues(
                TestItemsAt(tokens, old(current), old(maxNestingDepth - nestingDepth), requests, expectations),
                TestItemsAt(tokens, current, old(maxNestingDepth - nestingDepth), moreRequests, moreExpectations),
                old(errors), errors)
      ensures var room := old(maxNestingDepth - nestingDepth);
              var before := RecoveredTestItems(tokens, old(current), room, requests, expectations, old(errors));
              before.Some? ==>
                before == RecoveredTestItems(tokens, current, room, moreRequests, moreExpectations, errors)
    {
      hide Peek;
      hide TestItemsAt;
      hide RecoveredTestItems;
      hide RequestAt;
      hide ExpectationAt;
      hide SuiteBoundary;
      hide FirstStop;
      TestItemsStep(tokens, current, maxNestingDepth - nestingDepth, requests, expectations);
      RecoveredItemsStep(tokens, current, maxNestingDepth - nestingDepth, requests, expectations, errors);
      moreRequests, moreExpectations, saw := requests, expectations, sawExpectation;
      if Check(REQUEST) {
        if sawExpectation {
          PushError(RequestAfterExpectation);
        }
        var request := ParseRequest();
        moreRequests := requests + [request];
      } else if Check(EXPECT) {
        saw := true;
        var expectation := ParseExpectation();
        moreExpectations := expectations + [expectation];
      } else {
        FirstStopAhead(tokens, current, TestItemStop);
        Expected();
        Bump();
        SkipTo(TestItemStop);
      }
    }

    method ParseCoreBlock() returns (tests: seq<TestAst>)
      requires Valid()
      modifies this
      ensures Kept(old(nestingDepth), old(current)) && (old(Check(CORE)) ==> old(current) < current)
      ensures Parses(
                CoreAt(tokens, old(current), old(maxNestingDepth - nestingDepth)), tests, current, old(errors), errors)
      ensures Recovers(
                RecoveredCore(tokens, old(current), old(maxNestingDepth - nestingDepth), old(errors)), tests, current,
                errors)
    {
      hide Peek;
      hide TestsAt;
      hide RecoveredTests;
      Consume(CORE);
      Consume(LEFT_BRACE);
      tests := ParseTests();
      Consume(RIGHT_BRACE);
    }

    method ParsePipelineBlock() returns (name: string, tests: seq<TestAst>)
      requires Valid()
      modifies this
      ensures Kept(old(nestingDepth), old(current)) && (old(Check(PIPELINE)) ==> old(current) < current)
      ensures Parses(
                PipelineAt(tokens, old(current), old(maxNestingDepth - nestingDepth)), (name, tests), current,
                old(errors), errors)
      ensures Recovers(
                RecoveredPipeline(tokens, old(current), old(maxNestingDepth - nestingDepth), old(errors)),
                (name, tests), current, errors)
    {
      hide Peek;
      hide PipelineTestsAt;
      hide RecoveredPipelineTests;
      Consume(PIPELINE);
      name := ParseString();
      Consume(LEFT_BRACE);
      tests := ParsePipelineTests();
    }

    /** The tests of a pipeline and its closing brace. */
    method ParsePipelineTests() returns (tests: seq<TestAst>)
      requires Valid()
      modifies this
      ensures Kept(old(nestingDepth), old(current))
      ensures Parses(
                PipelineTestsAt(tokens, old(current), old(maxNestingDepth - nestingDepth)), tests, current,
                old(errors), errors)
      ensures Recovers(
                RecoveredPipelineTests(tokens, old(current), old(maxNestingDepth - nestingDepth), old(errors)), tests,
                current, errors)
    {
      hide Peek;
      hide TestsAt;
      hide RecoveredTests;
      tests := ParseTests();
      if tests == [] {
        PushError(EmptyPipeline);
      }
      Consume(RIGHT_BRACE);
    }

    /** The tests of a core or pipeline block, up to but without its closing brace. */
    method ParseTests() returns (tests: seq<TestAst>)
      requires Valid()
      modifies this
      ensures Kept(old(nestingDepth), old(current))
      ensures match TestsAt(tokens, old(current), old(maxNestingDepth - nestingDepth), [])
              case Some(parsed) =>
                && errors == old(errors) && tests == parsed.node && current + 1 == parsed.next && Check(RIGHT_BRACE)
              case None => |errors| > |old(errors)| || (errors == old(errors) && !Check(RIGHT_BRACE))
      ensures Recovers(
                RecoveredTests(tokens, old(current), old(maxNestingDepth - nestingDepth), [], old(errors)), tests,
                current, errors)
    {
      hide Peek;
      hide TestAt;
      hide OuterBlockBoundary;
      hide ContainedTestStop;
      hide TestsAt;
      hide RecoveredTests;
      hide FirstStop;
      tests := [];
      ghost var room := maxNestingDepth - nestingDepth;
      ghost var whole := TestsAt(tokens, current, room, []);
      ghost var recovered := RecoveredTests(tokens, current, room, [], errors);
      while !IsAtEnd() && !Check(RIGHT_BRACE) && !OuterBlockBoundary(PeekKind())
        invariant Kept(old(nestingDepth), old(current))
        invariant Continues(whole, TestsAt(tokens, current, room, tests), old(errors), errors)
        invariant recovered.Some? ==> recovered == RecoveredTests(tokens, current, room, tests, errors)
        decreases |tokens| - current
      {
        TestsStep(tokens, current, room, tests, errors);
        if Check(TEST) {
          var test := ParseTest();
          tests := tests + [test];
        } else {
          FirstStopAhead(tokens, current, ContainedTestStop);
          Expected();
          Bump();
          SkipTo(ContainedTestStop);
        }
      }
      TestsStep(tokens, current, room, tests, errors);
    }

    method ParseBlock() returns (block: BlockAst)
      requires Valid() && SuiteBoundary(PeekKind())
      modifies this
      ensures Kept(old(nestingDepth), old(current)) && old(current) < current
      ensures Parses(
                BlockAt(tokens, old(current), old(maxNestingDepth - nestingDepth)), block, current, old(errors), errors)
      ensures Recovers(
                RecoveredBlock(tokens, old(current), old(maxNestingDepth - nestingDepth), old(errors)), block, current,
                errors)
    {
      hide Peek;
      hide CoreAt;
      hide PipelineAt;
      hide TestAt;
      hide RecoveredCore;
      hide RecoveredPipeline;
      if Check(CORE) {
        var tests := ParseCoreBlock();
        block := CoreAst(tests);
      } else if Check(PIPELINE) {
        var name, tests := ParsePipelineBlock();
        block := PipelineAst(name, tests);
      } else {
        var test := ParseTest();
        block := StandaloneAst(test);
      }
    }

    /**
     * The whole input: no errors, and the suite the grammar says, exactly if the grammar accepts it; and with noise
     * between blocks or tests, still all of these and one error for each run of noise.
     */
    method ParseSuite() returns (ast: SuiteAst)
      requires Valid() && current == 0 && nestingDepth == 0 && errors == []
      modifies this
      ensures Kept(0, 0)
      ensures match SuiteAt(tokens, maxNestingDepth)
              case Some(suite) => errors == [] && ast == suite
              case None => errors != []
      ensures match RecoveredBlocks(tokens, 0, maxNestingDepth, false, [], [])
              case Some(recovered) => ast.blocks == recovered.0 && errors == recovered.1
              case None => true
    {
      hide Peek;
      hide BlockAt;
      hide BlocksAt;
      hide RecoveredBlocks;
      hide RecoveredBlock;
      hide SuiteBoundary;
      hide FirstStop;
      var blocks: seq<BlockAst> := [];
      var hasCore := false;
      ghost var whole := BlocksAt(tokens, 0, maxNestingDepth, false, []);
      ghost var recovered := RecoveredBlocks(tokens, 0, maxNestingDepth, false, [], []);
      while !IsAtEnd()
        invariant Kept(0, 0)
        invariant if errors == [] then whole == BlocksAt(tokens, current, maxNestingDepth, hasCore, blocks) else whole.None?
        invariant recovered.Some? ==>
                    recovered == RecoveredBlocks(tokens, current, maxNestingDepth, hasCore, blocks, errors)
        decreases |tokens| - current
      {
        BlocksStep(tokens, current, maxNestingDepth, hasCore, blocks, errors);
        if SuiteBoundary(PeekKind()) {
          if Check(CORE) {
            if hasCore {
              PushError(DuplicateCore);
            }
            hasCore := true;
          }
          var block := ParseBlock();
          blocks := blocks + [block];
        } else {
          FirstStopAhead(tokens, current, SuiteBoundary);
          Expected();
          Bump();
          SkipTo(SuiteBoundary);
        }
      }
      BlocksStep(tokens, current, maxNestingDepth, hasCore, blocks, errors);
      if blocks == [] && errors == [] {
        PushError(EmptySuite);
      }
      ast := SuiteAst(blocks);
    }
  }

  /** `parse` with a configured limit. */
  method Parse(tokens: seq<TokenKind>, limit: nat) returns (ast: SuiteAst, errors: Errors)
    ensures match SuiteAt(tokens, EffectiveLimit(limit))
            case Some(suite) => errors == [] && ast == suite
            case None => errors != []
    ensures match RecoveredBlocks(tokens, 0, EffectiveLimit(limit), false, [], [])
            case Some(recovered) => ast.blocks == recovered.0 && errors == recovered.1
            case None => true
  {
    var parser := new Parser(tokens, limit);
    ast := parser.ParseSuite();
    errors := parser.errors;
  }

  function EffectiveLimit(limit: nat): nat {
    if limit > HARD_MAX_NESTING_DEPTH then HARD_MAX_NESTING_DEPTH else limit
  }
}
