/** The syntax trees parsing can produce, and the rendering that parses back to them. */
module Canonical {
  import opened Wrappers
  import opened IndexMap
  import opened JsonValues
  import opened Expectation
  import opened Domain
  import opened Ast
  import opened Tokens

  // ---- trees within a nesting limit that respect the grammar ----

  ghost predicate ValueFits(value: ValueAst, room: nat) {
    match value
    case ArrayAst(items) => room > 0 && forall i | 0 <= i < |items| :: ValueFits(items[i], room - 1)
    case ObjectAst(entries) => room > 0 && forall i | 0 <= i < |entries| :: ValueFits(entries[i].1, room - 1)
    case _ => true
  }

  ghost predicate EntriesFit(entries: Entries<ValueAst>, room: nat) {
    forall i | 0 <= i < |entries| :: ValueFits(entries[i].1, room)
  }

  ghost predicate ItemsFit(items: seq<ValueAst>, room: nat) {
    forall i | 0 <= i < |items| :: ValueFits(items[i], room)
  }

  ghost predicate SectionFits(section: RequestSection, room: nat) {
    match section
    case RequestHeaders(entries) => EntriesFit(entries, room)
    case RequestQuery(entries) => room > 0 && EntriesFit(entries, room - 1)
    case RequestBodySection(entries) => room > 0 && EntriesFit(entries, room - 1)
  }

  ghost predicate SectionsFit(sections: seq<RequestSection>, room: nat) {
    forall i | 0 <= i < |sections| :: SectionFits(sections[i], room)
  }

  ghost predicate RequestFits(request: RequestAst, room: nat) {
    SectionsFit(request.sections, room)
  }

  /** A field asserts something; only the type `object` has a nested assertion, and only a type has a capture. */
  ghost predicate FieldFits(field: FieldAssertionAst, room: nat)
    decreases field
  {
    && (field.expectedType.Some? || field.expectedValue.Some?)
    && (field.expectedValue.Some? ==> ValueFits(field.expectedValue.value, room))
    && (field.nested.Some? ==>
          && field.expectedType == Some(TObject) && field.expectedValue.None?
          && field.nested.value.mode == MatchPartial && AssertionFits(field.nested.value, room))
    && (field.capture.Some? ==> field.expectedType.Some?)
  }

  ghost predicate AssertionFits(a: ObjectAssertionAst, room: nat)
    decreases a
  {
    room > 0 && forall i | 0 <= i < |a.fields| :: FieldFits(a.fields[i], room - 1)
  }

  ghost predicate FieldsFit(fields: seq<FieldAssertionAst>, room: nat) {
    forall i | 0 <= i < |fields| :: FieldFits(fields[i], room)
  }

  ghost predicate ExpectationSectionFits(section: ExpectationSection, room: nat) {
    section.BodySection? && section.body.ObjectBody? ==> AssertionFits(section.body.shape, room)
  }

  ghost predicate ExpectationFits(expectation: ExpectationAst, room: nat) {
    forall i | 0 <= i < |expectation.sections| :: ExpectationSectionFits(expectation.sections[i], room)
  }

  ghost predicate TestFits(test: TestAst, room: nat) {
    && test.requests != [] && test.expectations != []
    && (forall i | 0 <= i < |test.requests| :: RequestFits(test.requests[i], room))
    && forall i | 0 <= i < |test.expectations| :: ExpectationFits(test.expectations[i], room)
  }

  ghost predicate TestsFit(tests: seq<TestAst>, room: nat) {
    forall i | 0 <= i < |tests| :: TestFits(tests[i], room)
  }

  ghost predicate BlockFits(block: BlockAst, room: nat) {
    match block
    case CoreAst(tests) => TestsFit(tests, room)
    case PipelineAst(_, tests) => tests != [] && TestsFit(tests, room)
    case StandaloneAst(test) => TestFits(test, room)
  }

  ghost predicate SuiteFits(ast: SuiteAst, room: nat) {
    && ast.blocks != []
    && (forall i, j | 0 <= i < j < |ast.blocks| :: !(ast.blocks[i].CoreAst? && ast.blocks[j].CoreAst?))
    && forall i | 0 <= i < |ast.blocks| :: BlockFits(ast.blocks[i], room)
  }

  // ---- rendering ----

  /** The comma that may follow an entry, a field or a status. */
  function Comma(commas: bool): seq<TokenKind> {
    if commas then [COMMA] else []
  }

  function ValueTokens(value: ValueAst, commas: bool): (r: seq<TokenKind>)
    ensures r != []
    decreases value
  {
    match value
    case StringAst(text) => [StringLiteral(text)]
    case IntegerAst(n) => [IntegerLiteral(n)]
    case NumberAst(f) => [NumberLiteral(f)]
    case BooleanAst(b) => [if b then TRUE else FALSE]
    case NullAst => [NULL]
    case ArrayAst(items) => [LEFT_BRACKET] + ItemTokens(items, commas) + [RIGHT_BRACKET]
    case ObjectAst(entries) => [LEFT_BRACE] + EntryTokens(entries, commas) + [RIGHT_BRACE]
  }

  /** Array items, between which commas are mandatory. */
  function ItemTokens(items: seq<ValueAst>, commas: bool): seq<TokenKind>
    decreases items
  {
    if items == [] then []
    else
      ValueTokens(items[0], commas)
      + (if |items| == 1 then Comma(commas) else [COMMA]) + ItemTokens(items[1..], commas)
  }

  function EntryTokens(entries: Entries<ValueAst>, commas: bool): seq<TokenKind>
    decreases entries
  {
    if entries == [] then []
    else OneEntryTokens(entries[0], commas) + Comma(commas) + EntryTokens(entries[1..], commas)
  }

  function OneEntryTokens(entry: (string, ValueAst), commas: bool): seq<TokenKind>
    decreases entry
  {
    [StringLiteral(entry.0), EQUAL] + ValueTokens(entry.1, commas)
  }

  function SectionTokens(section: RequestSection, commas: bool): seq<TokenKind> {
    var keyword := match section
      case RequestHeaders(_) => HEADERS
      case RequestQuery(_) => QUERY
      case RequestBodySection(_) => BODY;
    [keyword, LEFT_BRACE] + EntryTokens(section.entries, commas) + [RIGHT_BRACE]
  }

  function SectionsTokens(sections: seq<RequestSection>, commas: bool): seq<TokenKind> {
    if sections == [] then [] else SectionTokens(sections[0], commas) + SectionsTokens(sections[1..], commas)
  }

  function RequestTokens(request: RequestAst, commas: bool): seq<TokenKind> {
    [REQUEST, Verb(request.verb), StringLiteral(request.path), LEFT_BRACE]
    + SectionsTokens(request.sections, commas) + [RIGHT_BRACE]
  }

  function TypeToken(t: ExpectedType): TokenKind {
    match t
    case TString => TYPE_STRING
    case TBoolean => TYPE_BOOLEAN
    case TInteger => TYPE_INTEGER
    case TNumber => TYPE_NUMBER
    case TObject => TYPE_OBJECT
    case TArray => TYPE_ARRAY
    case TNull => NULL
  }

  function TypeTokens(t: Option<ExpectedType>): seq<TokenKind> {
    if t.None? then [] else [COLON, TypeToken(t.value)]
  }

  function CaptureTokens(capture: Option<string>): seq<TokenKind> {
    if capture.None? then [] else [ARROW, Identifier(capture.value)]
  }

  function ComparisonTokens(field: FieldAssertionAst, commas: bool): seq<TokenKind>
    decreases field, 0
  {
    if field.expectedValue.Some? then [EQUAL] + ValueTokens(field.expectedValue.value, commas)
    else if field.nested.Some? then AssertionTokens(field.nested.value, commas)
    else []
  }

  function FieldTokens(field: FieldAssertionAst, commas: bool): seq<TokenKind>
    decreases field, 1
  {
    [StringLiteral(field.name)] + TypeTokens(field.expectedType) + ComparisonTokens(field, commas)
    + CaptureTokens(field.capture)
  }

  function FieldsTokensFrom(a: ObjectAssertionAst, i: nat, commas: bool): seq<TokenKind>
    requires i <= |a.fields|
    decreases a, |a.fields| - i
  {
    if i == |a.fields| then [] else FieldTokens(a.fields[i], commas) + Comma(commas) + FieldsTokensFrom(a, i + 1, commas)
  }

  function AssertionTokens(a: ObjectAssertionAst, commas: bool): seq<TokenKind>
    decreases a, |a.fields| + 1
  {
    [LEFT_BRACE] + FieldsTokensFrom(a, 0, commas) + [RIGHT_BRACE]
  }

  function HeaderTokens(entry: ResponseHeaderAst): seq<TokenKind> {
    match entry
    case ExistsAst(name) => [StringLiteral(name), COLON, TYPE_STRING]
    case ExactAst(name, text) => [StringLiteral(name), EQUAL, StringLiteral(text)]
    case ContainsAst(name, text) => [StringLiteral(name), Identifier("contains"), StringLiteral(text)]
  }

  function HeadersTokens(entries: seq<ResponseHeaderAst>, commas: bool): seq<TokenKind> {
    if entries == [] then [] else HeaderTokens(entries[0]) + Comma(commas) + HeadersTokens(entries[1..], commas)
  }

  function BodyTokens(body: BodyAssertionAst, commas: bool): seq<TokenKind> {
    match body
    case EmptyBody => [Identifier("empty")] + Comma(commas)
    case TextExactBody(text) => [EQUAL, StringLiteral(text)] + Comma(commas)
    case TextContainsBody(text) => [Identifier("contains"), StringLiteral(text)] + Comma(commas)
    case ObjectBody(shape) => (if shape.mode.MatchExact? then [EXACT] else []) + AssertionTokens(shape, commas)
  }

  function ExpectationSectionTokens(section: ExpectationSection, commas: bool): seq<TokenKind> {
    match section
    case StatusSection(status) => [STATUS, EQUAL, IntegerLiteral(status)] + Comma(commas)
    case HeadersSection(entries) => [HEADERS, LEFT_BRACE] + HeadersTokens(entries, commas) + [RIGHT_BRACE]
    case BodySection(body) => [BODY] + BodyTokens(body, commas)
  }

  function ExpectationSectionsTokens(sections: seq<ExpectationSection>, commas: bool): seq<TokenKind> {
    if sections == [] then []
    else ExpectationSectionTokens(sections[0], commas) + ExpectationSectionsTokens(sections[1..], commas)
  }

  function ExpectationTokens(expectation: ExpectationAst, commas: bool): seq<TokenKind> {
    [EXPECT, LEFT_BRACE] + ExpectationSectionsTokens(expectation.sections, commas) + [RIGHT_BRACE]
  }

  function RequestsTokens(requests: seq<RequestAst>, commas: bool): seq<TokenKind> {
    if requests == [] then [] else RequestTokens(requests[0], commas) + RequestsTokens(requests[1..], commas)
  }

  function ExpectationsTokens(expectations: seq<ExpectationAst>, commas: bool): seq<TokenKind> {
    if expectations == [] then []
    else ExpectationTokens(expectations[0], commas) + ExpectationsTokens(expectations[1..], commas)
  }

  function TestTokens(test: TestAst, commas: bool): seq<TokenKind> {
    [TEST, StringLiteral(test.name), LEFT_BRACE] + RequestsTokens(test.requests, commas)
    + (ExpectationsTokens(test.expectations, commas) + [RIGHT_BRACE])
  }

  function TestsTokens(tests: seq<TestAst>, commas: bool): seq<TokenKind> {
    if tests == [] then [] else TestTokens(tests[0], commas) + TestsTokens(tests[1..], commas)
  }

  function BlockTokens(block: BlockAst, commas: bool): seq<TokenKind> {
    match block
    case CoreAst(tests) => [CORE, LEFT_BRACE] + TestsTokens(tests, commas) + [RIGHT_BRACE]
    case PipelineAst(name, tests) =>
      [PIPELINE, StringLiteral(name), LEFT_BRACE] + TestsTokens(tests, commas) + [RIGHT_BRACE]
    case StandaloneAst(test) => TestTokens(test, commas)
  }

  function BlocksTokens(blocks: seq<BlockAst>, commas: bool): seq<TokenKind> {
    if blocks == [] then [] else BlockTokens(blocks[0], commas) + BlocksTokens(blocks[1..], commas)
  }

  function SuiteTokens(ast: SuiteAst, commas: bool): seq<TokenKind> {
    BlocksTokens(ast.blocks, commas) + [EOF]
  }
}
