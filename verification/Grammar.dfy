/**
 * The grammar of suites as a parser without recovery: `None` means a syntax error somewhere. Containers may be nested
 * at most `room` levels deep. Functions that accumulate correspond to one loop of the recovering parser.
 */
module Grammar {
  import opened Wrappers
  import opened IndexMap
  import opened JsonValues
  import opened Expectation
  import opened Domain
  import opened Ast
  import opened Tokens

  /** The parsed construct and the position behind it. */
  datatype Parsed<+T> = Parsed(node: T, next: nat)

  /** The token at a position; nothing follows an end marker or the last token. */
  function Peek(tokens: seq<TokenKind>, i: nat): TokenKind {
    if i < |tokens| then tokens[i] else EOF
  }

  function AfterOptionalComma(tokens: seq<TokenKind>, i: nat): (r: nat)
    ensures i <= r && (i <= |tokens| ==> r <= |tokens|)
  {
    if Peek(tokens, i) == COMMA then i + 1 else i
  }

  function VerbText(verb: HttpMethod): string {
    match verb
    case GET => "GET"
    case POST => "POST"
    case PUT => "PUT"
    case PATCH => "PATCH"
    case DELETE => "DELETE"
    case HEAD => "HEAD"
    case OPTIONS => "OPTIONS"
  }

  /** The text of a token that may be an object key: names, strings and most keywords. */
  function KeyText(kind: TokenKind): Option<string> {
    if kind.Identifier? then Some(kind.name)
    else if kind.StringLiteral? then Some(kind.text)
    else if kind.Verb? then Some(VerbText(kind.verb))
    else if kind == STATUS then Some("status")
    else if kind == EXACT then Some("exact")
    else if kind == TYPE_STRING then Some("string")
    else if kind == TYPE_BOOLEAN then Some("boolean")
    else if kind == TYPE_INTEGER then Some("integer")
    else if kind == TYPE_NUMBER then Some("number")
    else if kind == TYPE_OBJECT then Some("object")
    else if kind == TYPE_ARRAY then Some("array")
    else if kind == TRUE then Some("true")
    else if kind == FALSE then Some("false")
    else if kind == NULL then Some("null")
    else None
  }

  function TypeOf(kind: TokenKind): Option<ExpectedType> {
    if kind == TYPE_STRING then Some(TString)
    else if kind == TYPE_BOOLEAN then Some(TBoolean)
    else if kind == TYPE_INTEGER then Some(TInteger)
    else if kind == TYPE_NUMBER then Some(TNumber)
    else if kind == TYPE_OBJECT then Some(TObject)
    else if kind == TYPE_ARRAY then Some(TArray)
    else if kind == NULL then Some(TNull)
    else None
  }

  /** A string literal at a position. */
  function StringAt(tokens: seq<TokenKind>, i: nat): Option<string> {
    if Peek(tokens, i).StringLiteral? then Some(Peek(tokens, i).text) else None
  }

  // ---- values ----

  /** The value of a token that is a value by itself. */
  function ScalarOf(kind: TokenKind): Option<ValueAst> {
    if kind.StringLiteral? then Some(StringAst(kind.text))
    else if kind.IntegerLiteral? then Some(IntegerAst(kind.n))
    else if kind.NumberLiteral? then Some(NumberAst(kind.f))
    else if kind == TRUE then Some(BooleanAst(true))
    else if kind == FALSE then Some(BooleanAst(false))
    else if kind == NULL then Some(NullAst)
    else None
  }

  function ValueAt(tokens: seq<TokenKind>, i: nat, room: nat): (r: Option<Parsed<ValueAst>>)
    ensures r.Some? ==> i < r.value.next <= |tokens|
    decreases |tokens| - i, 1
  {
    var kind := Peek(tokens, i);
    if ScalarOf(kind).Some? then Some(Parsed(ScalarOf(kind).value, i + 1))
    else if kind == LEFT_BRACKET && room > 0 then
      var items :- ItemsAt(tokens, i + 1, room - 1, []);
      Some(Parsed(ArrayAst(items.node), items.next))
    else if kind == LEFT_BRACE && room > 0 then
      var entries :- EntriesAt(tokens, i + 1, room - 1, []);
      Some(Parsed(ObjectAst(entries.node), entries.next))
    else None
  }

  /** An array item with the comma behind it, which may only be missing in front of the closing bracket. */
  function ItemAt(tokens: seq<TokenKind>, i: nat, room: nat): (r: Option<Parsed<ValueAst>>)
    ensures r.Some? ==> i < r.value.next <= |tokens|
    decreases |tokens| - i, 2
  {
    var item :- ValueAt(tokens, i, room);
    if Peek(tokens, item.next) == COMMA then Some(item.(next := item.next + 1))
    else if Peek(tokens, item.next) == RIGHT_BRACKET then Some(item)
    else None
  }

  /** Array items up to the closing bracket. */
  function ItemsAt(tokens: seq<TokenKind>, i: nat, room: nat, items: seq<ValueAst>)
    : (r: Option<Parsed<seq<ValueAst>>>)
    ensures r.Some? ==> i < r.value.next <= |tokens|
    decreases |tokens| - i, 3
  {
    if Peek(tokens, i) == RIGHT_BRACKET then Some(Parsed(items, i + 1))
    else
      var item :- ItemAt(tokens, i, room);
      ItemsAt(tokens, item.next, room, items + [item.node])
  }

  /** An object entry with an optional comma behind it. */
  function EntryAt(tokens: seq<TokenKind>, i: nat, room: nat): (r: Option<Parsed<(string, ValueAst)>>)
    ensures r.Some? ==> i < r.value.next <= |tokens|
    decreases |tokens| - i, 2
  {
    var key :- KeyText(Peek(tokens, i));
    if Peek(tokens, i + 1) != EQUAL then None
    else
      var value :- ValueAt(tokens, i + 2, room);
      Some(Parsed((key, value.node), AfterOptionalComma(tokens, value.next)))
  }

  /** Object entries up to the closing brace. */
  function EntriesAt(tokens: seq<TokenKind>, i: nat, room: nat, entries: Entries<ValueAst>)
    : (r: Option<Parsed<Entries<ValueAst>>>)
    ensures r.Some? ==> i < r.value.next <= |tokens|
    decreases |tokens| - i, 3
  {
    if Peek(tokens, i) == RIGHT_BRACE then Some(Parsed(entries, i + 1))
    else
      var entry :- EntryAt(tokens, i, room);
      EntriesAt(tokens, entry.next, room, entries + [entry.node])
  }

  /** An object where nothing else may stand. */
  function ObjectAt(tokens: seq<TokenKind>, i: nat, room: nat): (r: Option<Parsed<Entries<ValueAst>>>)
    ensures r.Some? ==> i < r.value.next <= |tokens|
  {
    if Peek(tokens, i) != LEFT_BRACE || room == 0 then None else EntriesAt(tokens, i + 1, room - 1, [])
  }

  function ArrayAt(tokens: seq<TokenKind>, i: nat, room: nat): (r: Option<Parsed<seq<ValueAst>>>)
    ensures r.Some? ==> i < r.value.next <= |tokens|
  {
    if Peek(tokens, i) != LEFT_BRACKET || room == 0 then None else ItemsAt(tokens, i + 1, room - 1, [])
  }

  // ---- requests ----

  /** A request header with an optional comma behind it. */
  function RequestHeaderAt(tokens: seq<TokenKind>, i: nat, room: nat): (r: Option<Parsed<(string, ValueAst)>>)
    ensures r.Some? ==> i < r.value.next <= |tokens|
  {
    var name :- StringAt(tokens, i);
    if Peek(tokens, i + 1) != EQUAL then None
    else
      var value :- ValueAt(tokens, i + 2, room);
      Some(Parsed((name, value.node), AfterOptionalComma(tokens, value.next)))
  }

  function RequestHeadersAt(tokens: seq<TokenKind>, i: nat, room: nat, entries: Entries<ValueAst>)
    : (r: Option<Parsed<Entries<ValueAst>>>)
    ensures r.Some? ==> i < r.value.next <= |tokens|
    decreases |tokens| - i
  {
    if Peek(tokens, i) == RIGHT_BRACE then Some(Parsed(entries, i + 1))
    else
      var entry :- RequestHeaderAt(tokens, i, room);
      RequestHeadersAt(tokens, entry.next, room, entries + [entry.node])
  }

  function RequestHeadersSectionAt(tokens: seq<TokenKind>, i: nat, room: nat): (r: Option<Parsed<Entries<ValueAst>>>)
    ensures r.Some? ==> i < r.value.next <= |tokens|
  {
    if Peek(tokens, i) != HEADERS || Peek(tokens, i + 1) != LEFT_BRACE then None
    else RequestHeadersAt(tokens, i + 2, room, [])
  }

  /** An object behind a keyword: query parameters or a request body. */
  function KeywordObjectAt(tokens: seq<TokenKind>, i: nat, keyword: TokenKind, room: nat)
    : (r: Option<Parsed<Entries<ValueAst>>>)
    ensures r.Some? ==> i < r.value.next <= |tokens|
  {
    if Peek(tokens, i) != keyword then None else ObjectAt(tokens, i + 1, room)
  }

  function RequestSectionAt(tokens: seq<TokenKind>, i: nat, room: nat): (r: Option<Parsed<RequestSection>>)
    ensures r.Some? ==> i < r.value.next <= |tokens|
  {
    if Peek(tokens, i) == HEADERS then
      var entries :- RequestHeadersSectionAt(tokens, i, room);
      Some(Parsed(RequestHeaders(entries.node), entries.next))
    else if Peek(tokens, i) == QUERY then
      var entries :- KeywordObjectAt(tokens, i, QUERY, room);
      Some(Parsed(RequestQuery(entries.node), entries.next))
    else
      var entries :- KeywordObjectAt(tokens, i, BODY, room);
      Some(Parsed(RequestBodySection(entries.node), entries.next))
  }

  function RequestSectionsAt(tokens: seq<TokenKind>, i: nat, room: nat, sections: seq<RequestSection>)
    : (r: Option<Parsed<seq<RequestSection>>>)
    ensures r.Some? ==> i < r.value.next <= |tokens|
    decreases |tokens| - i
  {
    if Peek(tokens, i) == RIGHT_BRACE then Some(Parsed(sections, i + 1))
    else
      var section :- RequestSectionAt(tokens, i, room);
      RequestSectionsAt(tokens, section.next, room, sections + [section.node])
  }

  /** The optional sections of a request, in braces. */
  function RequestOptionsAt(tokens: seq<TokenKind>, i: nat, room: nat): (r: Option<Parsed<seq<RequestSection>>>)
    ensures r.Some? && i <= |tokens| ==> i <= r.value.next <= |tokens|
  {
    if Peek(tokens, i) != LEFT_BRACE then Some(Parsed([], i)) else RequestSectionsAt(tokens, i + 1, room, [])
  }

  function RequestAt(tokens: seq<TokenKind>, i: nat, room: nat): (r: Option<Parsed<RequestAst>>)
    ensures r.Some? ==> i < r.value.next <= |tokens|
  {
    if Peek(tokens, i) != REQUEST || !Peek(tokens, i + 1).Verb? then None
    else
      var path :- StringAt(tokens, i + 2);
      var sections :- RequestOptionsAt(tokens, i + 3, room);
      Some(Parsed(RequestAst(Peek(tokens, i + 1).verb, path, sections.node), sections.next))
  }

  // ---- expectations ----

  /** The fields of an object assertion up to the closing brace. */
  function FieldsAt(tokens: seq<TokenKind>, i: nat, room: nat, fields: seq<FieldAssertionAst>)
    : (r: Option<Parsed<seq<FieldAssertionAst>>>)
    ensures r.Some? ==> i < r.value.next <= |tokens|
    decreases |tokens| - i, 3
  {
    if Peek(tokens, i) == RIGHT_BRACE then Some(Parsed(fields, i + 1))
    else
      var field :- FieldItemAt(tokens, i, room);
      FieldsAt(tokens, field.next, room, fields + [field.node])
  }

  /** A field assertion with an optional comma behind it. */
  function FieldItemAt(tokens: seq<TokenKind>, i: nat, room: nat): (r: Option<Parsed<FieldAssertionAst>>)
    ensures r.Some? ==> i < r.value.next <= |tokens|
    decreases |tokens| - i, 2
  {
    var field :- FieldAt(tokens, i, room);
    Some(field.(next := AfterOptionalComma(tokens, field.next)))
  }

  function AssertionAt(tokens: seq<TokenKind>, i: nat, mode: MatchMode, room: nat)
    : (r: Option<Parsed<ObjectAssertionAst>>)
    ensures r.Some? ==> i < r.value.next <= |tokens|
    decreases |tokens| - i, 4
  {
    if Peek(tokens, i) != LEFT_BRACE || room == 0 then None
    else
      var fields :- FieldsAt(tokens, i + 1, room - 1, []);
      Some(Parsed(ObjectAssertionAst(mode, fields.node), fields.next))
  }

  /** An optional type behind a field name. */
  function FieldTypeAt(tokens: seq<TokenKind>, i: nat): (r: Option<Parsed<Option<ExpectedType>>>)
    ensures r.Some? && i <= |tokens| ==> i <= r.value.next <= |tokens|
  {
    if Peek(tokens, i) != COLON then Some(Parsed(None, i))
    else if TypeOf(Peek(tokens, i + 1)).None? then None
    else Some(Parsed(TypeOf(Peek(tokens, i + 1)), i + 2))
  }

  /** An optional comparison, or a nested assertion behind the type `object`. */
  function ComparisonAt(tokens: seq<TokenKind>, i: nat, expectedType: Option<ExpectedType>, room: nat)
    : (r: Option<Parsed<(Option<ValueAst>, Option<ObjectAssertionAst>)>>)
    ensures r.Some? && i <= |tokens| ==> i <= r.value.next <= |tokens|
    decreases |tokens| - i, 5
  {
    if Peek(tokens, i) == EQUAL then
      var value :- ValueAt(tokens, i + 1, room);
      Some(Parsed((Some(value.node), None), value.next))
    else if expectedType == Some(TObject) && Peek(tokens, i) == LEFT_BRACE then
      var nested :- AssertionAt(tokens, i, MatchPartial, room);
      Some(Parsed((None, Some(nested.node)), nested.next))
    else Some(Parsed((None, None), i))
  }

  /** An optional capture, for which the type must be given. */
  function CaptureAt(tokens: seq<TokenKind>, i: nat, expectedType: Option<ExpectedType>)
    : (r: Option<Parsed<Option<string>>>)
    ensures r.Some? && i <= |tokens| ==> i <= r.value.next <= |tokens|
  {
    if Peek(tokens, i) != ARROW then Some(Parsed(None, i))
    else if expectedType.None? || !Peek(tokens, i + 1).Identifier? then None
    else Some(Parsed(Some(Peek(tokens, i + 1).name), i + 2))
  }

  function FieldAt(tokens: seq<TokenKind>, i: nat, room: nat): (r: Option<Parsed<FieldAssertionAst>>)
    ensures r.Some? ==> i < r.value.next <= |tokens|
    decreases |tokens| - i, 1
  {
    var name :- KeyText(Peek(tokens, i));
    var expectedType :- FieldTypeAt(tokens, i + 1);
    var comparison :- ComparisonAt(tokens, expectedType.next, expectedType.node, room);
    var (expectedValue, nested) := comparison.node;
    var capture :- CaptureAt(tokens, comparison.next, expectedType.node);
    if expectedType.node.None? && expectedValue.None? && nested.None? then None
    else Some(Parsed(FieldAssertionAst(name, expectedType.node, expectedValue, nested, capture.node), capture.next))
  }

  /** A response header assertion with an optional comma behind it. */
  function ResponseHeaderAt(tokens: seq<TokenKind>, i: nat): (r: Option<Parsed<ResponseHeaderAst>>)
    ensures r.Some? ==> i < r.value.next <= |tokens|
  {
    var name :- StringAt(tokens, i);
    if Peek(tokens, i + 1) == COLON then
      if Peek(tokens, i + 2) != TYPE_STRING then None
      else Some(Parsed(ExistsAst(name), AfterOptionalComma(tokens, i + 3)))
    else if Peek(tokens, i + 1) == EQUAL then
      var text :- StringAt(tokens, i + 2);
      Some(Parsed(ExactAst(name, text), AfterOptionalComma(tokens, i + 3)))
    else if Peek(tokens, i + 1) == Identifier("contains") then
      var text :- StringAt(tokens, i + 2);
      Some(Parsed(ContainsAst(name, text), AfterOptionalComma(tokens, i + 3)))
    else None
  }

  function ResponseHeadersAt(tokens: seq<TokenKind>, i: nat, entries: seq<ResponseHeaderAst>)
    : (r: Option<Parsed<seq<ResponseHeaderAst>>>)
    ensures r.Some? ==> i < r.value.next <= |tokens|
    decreases |tokens| - i
  {
    if Peek(tokens, i) == RIGHT_BRACE then Some(Parsed(entries, i + 1))
    else
      var entry :- ResponseHeaderAt(tokens, i);
      ResponseHeadersAt(tokens, entry.next, entries + [entry.node])
  }

  function StatusAt(tokens: seq<TokenKind>, i: nat): (r: Option<Parsed<I64>>)
    ensures r.Some? ==> i < r.value.next <= |tokens|
  {
    if Peek(tokens, i) != STATUS || Peek(tokens, i + 1) != EQUAL || !Peek(tokens, i + 2).IntegerLiteral? then None
    else Some(Parsed(Peek(tokens, i + 2).n, AfterOptionalComma(tokens, i + 3)))
  }

  function ResponseHeadersSectionAt(tokens: seq<TokenKind>, i: nat): (r: Option<Parsed<seq<ResponseHeaderAst>>>)
    ensures r.Some? ==> i < r.value.next <= |tokens|
  {
    if Peek(tokens, i) != HEADERS || Peek(tokens, i + 1) != LEFT_BRACE then None
    else ResponseHeadersAt(tokens, i + 2, [])
  }

  /** A string behind `=` or `contains`, with an optional comma behind it. */
  function BodyTextAt(tokens: seq<TokenKind>, i: nat): (r: Option<Parsed<string>>)
    ensures r.Some? ==> i < r.value.next <= |tokens|
  {
    var text :- StringAt(tokens, i);
    Some(Parsed(text, AfterOptionalComma(tokens, i + 1)))
  }

  /** What follows the keyword `body`. */
  function BodyContentAt(tokens: seq<TokenKind>, i: nat, room: nat): (r: Option<Parsed<BodyAssertionAst>>)
    ensures r.Some? ==> i < r.value.next <= |tokens|
  {
    if Peek(tokens, i) == Identifier("empty") then Some(Parsed(EmptyBody, AfterOptionalComma(tokens, i + 1)))
    else if Peek(tokens, i) == EQUAL then
      var text :- BodyTextAt(tokens, i + 1);
      Some(Parsed(TextExactBody(text.node), text.next))
    else if Peek(tokens, i) == Identifier("contains") then
      var text :- BodyTextAt(tokens, i + 1);
      Some(Parsed(TextContainsBody(text.node), text.next))
    else
      var exact := Peek(tokens, i) == EXACT;
      var shape :- AssertionAt(
        tokens, if exact then i + 1 else i, if exact then MatchExact else MatchPartial, room);
      Some(Parsed(ObjectBody(shape.node), shape.next))
  }

  function BodyAt(tokens: seq<TokenKind>, i: nat, room: nat): (r: Option<Parsed<BodyAssertionAst>>)
    ensures r.Some? ==> i < r.value.next <= |tokens|
  {
    if Peek(tokens, i) != BODY then None else BodyContentAt(tokens, i + 1, room)
  }

  function ExpectationSectionAt(tokens: seq<TokenKind>, i: nat, room: nat): (r: Option<Parsed<ExpectationSection>>)
    ensures r.Some? ==> i < r.value.next <= |tokens|
  {
    if Peek(tokens, i) == STATUS then
      var status :- StatusAt(tokens, i);
      Some(Parsed(StatusSection(status.node), status.next))
    else if Peek(tokens, i) == HEADERS then
      var entries :- ResponseHeadersSectionAt(tokens, i);
      Some(Parsed(HeadersSection(entries.node), entries.next))
    else
      var body :- BodyAt(tokens, i, room);
      Some(Parsed(BodySection(body.node), body.next))
  }

  function ExpectationSectionsAt(tokens: seq<TokenKind>, i: nat, room: nat, sections: seq<ExpectationSection>)
    : (r: Option<Parsed<seq<ExpectationSection>>>)
    ensures r.Some? ==> i < r.value.next <= |tokens|
    decreases |tokens| - i
  {
    if Peek(tokens, i) == RIGHT_BRACE then Some(Parsed(sections, i + 1))
    else
      var section :- ExpectationSectionAt(tokens, i, room);
      ExpectationSectionsAt(tokens, section.next, room, sections + [section.node])
  }

  function ExpectationAt(tokens: seq<TokenKind>, i: nat, room: nat): (r: Option<Parsed<ExpectationAst>>)
    ensures r.Some? ==> i < r.value.next <= |tokens|
  {
    if Peek(tokens, i) != EXPECT || Peek(tokens, i + 1) != LEFT_BRACE then None
    else
      var sections :- ExpectationSectionsAt(tokens, i + 2, room, []);
      Some(Parsed(ExpectationAst(sections.node), sections.next))
  }

  // ---- tests and suites ----

  /** Requests and then expectations, at least one of each, up to the closing brace. */
  function TestItemsAt(
    tokens: seq<TokenKind>, i: nat, room: nat, requests: seq<RequestAst>, expectations: seq<ExpectationAst>)
    : (r: Option<Parsed<(seq<RequestAst>, seq<ExpectationAst>)>>)
    ensures r.Some? ==> i < r.value.next <= |tokens|
    decreases |tokens| - i
  {
    if Peek(tokens, i) == RIGHT_BRACE then
      if requests == [] || expectations == [] then None else Some(Parsed((requests, expectations), i + 1))
    else if Peek(tokens, i) == REQUEST then
      var request :- RequestAt(tokens, i, room);
      if expectations != [] then None
      else TestItemsAt(tokens, request.next, room, requests + [request.node], expectations)
    else
      var expectation :- ExpectationAt(tokens, i, room);
      TestItemsAt(tokens, expectation.next, room, requests, expectations + [expectation.node])
  }

  function TestAt(tokens: seq<TokenKind>, i: nat, room: nat): (r: Option<Parsed<TestAst>>)
    ensures r.Some? ==> i < r.value.next <= |tokens|
  {
    if Peek(tokens, i) != TEST then None
    else
      var name :- StringAt(tokens, i + 1);
      if Peek(tokens, i + 2) != LEFT_BRACE then None
      else
        var items :- TestItemsAt(tokens, i + 3, room, [], []);
        Some(Parsed(TestAst(name, items.node.0, items.node.1), items.next))
  }

  function TestsAt(tokens: seq<TokenKind>, i: nat, room: nat, tests: seq<TestAst>): (r: Option<Parsed<seq<TestAst>>>)
    ensures r.Some? ==> i < r.value.next <= |tokens|
    decreases |tokens| - i
  {
    if Peek(tokens, i) == RIGHT_BRACE then Some(Parsed(tests, i + 1))
    else
      var test :- TestAt(tokens, i, room);
      TestsAt(tokens, test.next, room, tests + [test.node])
  }

  function CoreAt(tokens: seq<TokenKind>, i: nat, room: nat): (r: Option<Parsed<seq<TestAst>>>)
    ensures r.Some? ==> i < r.value.next <= |tokens|
  {
    if Peek(tokens, i) != CORE || Peek(tokens, i + 1) != LEFT_BRACE then None else TestsAt(tokens, i + 2, room, [])
  }

  /** The tests of a pipeline, of which there must be some. */
  function PipelineTestsAt(tokens: seq<TokenKind>, i: nat, room: nat): (r: Option<Parsed<seq<TestAst>>>)
    ensures r.Some? ==> i < r.value.next <= |tokens|
  {
    var tests :- TestsAt(tokens, i, room, []);
    if tests.node == [] then None else Some(tests)
  }

  function PipelineAt(tokens: seq<TokenKind>, i: nat, room: nat): (r: Option<Parsed<(string, seq<TestAst>)>>)
    ensures r.Some? ==> i < r.value.next <= |tokens|
  {
    if Peek(tokens, i) != PIPELINE then None
    else
      var name :- StringAt(tokens, i + 1);
      if Peek(tokens, i + 2) != LEFT_BRACE then None
      else
        var tests :- PipelineTestsAt(tokens, i + 3, room);
        Some(Parsed((name, tests.node), tests.next))
  }

  function BlockAt(tokens: seq<TokenKind>, i: nat, room: nat): (r: Option<Parsed<BlockAst>>)
    ensures r.Some? ==> i < r.value.next <= |tokens|
  {
    if Peek(tokens, i) == CORE then
      var tests :- CoreAt(tokens, i, room);
      Some(Parsed(CoreAst(tests.node), tests.next))
    else if Peek(tokens, i) == PIPELINE then
      var pipeline :- PipelineAt(tokens, i, room);
      Some(Parsed(PipelineAst(pipeline.node.0, pipeline.node.1), pipeline.next))
    else
      var test :- TestAt(tokens, i, room);
      Some(Parsed(StandaloneAst(test.node), test.next))
  }

  function BlocksAt(tokens: seq<TokenKind>, i: nat, room: nat, hasCore: bool, blocks: seq<BlockAst>): Option<seq<BlockAst>>
    decreases |tokens| - i
  {
    if Peek(tokens, i) == EOF then if blocks == [] then None else Some(blocks)
    else if Peek(tokens, i) == CORE && hasCore then None
    else
      var block :- BlockAt(tokens, i, room);
      BlocksAt(tokens, block.next, room, hasCore || Peek(tokens, i) == CORE, blocks + [block.node])
  }

  /** The suite a token sequence denotes, if its syntax is right. */
  function SuiteAt(tokens: seq<TokenKind>, limit: nat): Option<SuiteAst> {
    var blocks :- BlocksAt(tokens, 0, limit, false, []);
    Some(SuiteAst(blocks))
  }
}
