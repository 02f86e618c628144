/**
 * Conversion of a syntax tree into a suite, crates/rettp-parser/src/semantic/converter.rs. Where the source relies on
 * validation and would panic, the model yields `None`.
 */
module Converter {
  import opened Wrappers
  import opened Text
  import opened IndexMap
  import opened JsonValues
  import opened Expectation
  import opened Domain
  import opened Ast

  function ValueFrom(value: ValueAst): Value {
    match value
    case StringAst(text) => StringValue(text)
    case IntegerAst(n) => IntegerValue(n)
    case NumberAst(f) => NumberValue(f)
    case BooleanAst(b) => BooleanValue(b)
    case NullAst => NullValue
    case ArrayAst(items) => ArrayValue(ItemsFrom(items))
    case ObjectAst(entries) => ObjectValue(InsertAll([], EntriesFrom(entries)))
  }

  function ItemsFrom(items: seq<ValueAst>): (r: seq<Value>)
    ensures |r| == |items| && forall i | 0 <= i < |r| :: r[i] == ValueFrom(items[i])
    decreases items
  {
    if items == [] then [] else [ValueFrom(items[0])] + ItemsFrom(items[1..])
  }

  /** The entries in source order, before they are collected into a map. */
  function EntriesFrom(entries: Entries<ValueAst>): (r: Entries<Value>)
    ensures |r| == |entries|
    decreases entries
  {
    if entries == [] then [] else [EntryFrom(entries[0])] + EntriesFrom(entries[1..])
  }

  function EntryFrom(entry: (string, ValueAst)): (string, Value)
    decreases entry
  {
    (entry.0, ValueFrom(entry.1))
  }

  lemma {:induction false} EntriesFromAt(entries: Entries<ValueAst>)
    ensures forall i | 0 <= i < |entries| :: EntriesFrom(entries)[i] == (entries[i].0, ValueFrom(entries[i].1))
    decreases |entries|
  {
    if entries != [] {
      EntriesFromAt(entries[1..]);
      assert forall i | 1 <= i < |entries| :: entries[i] == entries[1..][i - 1];
    }
  }

  // ---- requests ----

  function WithSection(request: HttpRequestSpec, section: RequestSection): HttpRequestSpec {
    match section
    case RequestHeaders(entries) => request.(headers := InsertAll(request.headers, EntriesFrom(entries)))
    case RequestQuery(entries) => request.(query := InsertAll(request.query, EntriesFrom(entries)))
    case RequestBodySection(entries) => request.(body := Some(JsonRequest(ObjectValue(InsertAll([], EntriesFrom(entries))))))
  }

  function WithSections(request: HttpRequestSpec, sections: seq<RequestSection>): HttpRequestSpec
    decreases |sections|
  {
    if sections == [] then request else WithSections(WithSection(request, sections[0]), sections[1..])
  }

  function RequestFrom(request: RequestAst): HttpRequestSpec {
    WithSections(HttpRequestSpec(request.verb, request.path, [], [], None, None), request.sections)
  }

  method InsertEntries(into: Entries<Value>, entries: Entries<ValueAst>) returns (r: Entries<Value>)
    ensures r == InsertAll(into, EntriesFrom(entries))
  {
    r := into;
    var i := 0;
    while i < |entries|
      invariant i <= |entries|
      invariant InsertAll(r, EntriesFrom(entries[i..])) == InsertAll(into, EntriesFrom(entries))
    {
      assert entries[i..][1..] == entries[i + 1..];
      assert EntriesFrom(entries[i..])[1..] == EntriesFrom(entries[i + 1..]);
      r := Insert(r, entries[i].0, ValueFrom(entries[i].1));
      i := i + 1;
    }
  }

  method ConvertRequest(request: RequestAst) returns (converted: HttpRequestSpec)
    ensures converted == RequestFrom(request)
  {
    converted := HttpRequestSpec(request.verb, request.path, [], [], None, None);
    var i := 0;
    while i < |request.sections|
      invariant i <= |request.sections|
      invariant WithSections(converted, request.sections[i..]) == RequestFrom(request)
    {
      assert request.sections[i..][1..] == request.sections[i + 1..];
      match request.sections[i] {
        case RequestHeaders(entries) =>
          var headers := InsertEntries(converted.headers, entries);
          converted := converted.(headers := headers);
        case RequestQuery(entries) =>
          var query := InsertEntries(converted.query, entries);
          converted := converted.(query := query);
        case RequestBodySection(entries) =>
          converted := converted.(body := Some(JsonRequest(ValueFrom(ObjectAst(entries)))));
      }
      i := i + 1;
    }
  }

  // ---- expectations ----

  /** The declared type, or the type of the expected value, or object for a nested assertion. */
  function FieldTypeFrom(field: FieldAssertionAst): Option<ExpectedType> {
    if field.expectedType.Some? then field.expectedType
    else if field.expectedValue.Some? then Some(InferType(field.expectedValue.value))
    else if field.nested.Some? then Some(TObject)
    else None
  }

  function FieldFrom(field: FieldAssertionAst): Option<FieldAssertion>
    decreases field
  {
    var expectedType :- FieldTypeFrom(field);
    var nested :- if field.nested.None? then Some(None) else
      (match ObjectFrom(field.nested.value)
       case None => None
       case Some(nested) => Some(Some(nested)));
    if field.capture.Some? && !ValidVariableName(field.capture.value) then None
    else
      Some(FieldAssertion(
        field.name, expectedType,
        if field.expectedValue.None? then None else Some(ValueFrom(field.expectedValue.value)),
        nested, field.capture))
  }

  function FieldsFrom(a: ObjectAssertionAst, i: nat, converted: Entries<FieldAssertion>): Option<Entries<FieldAssertion>>
    requires i <= |a.fields|
    decreases a, |a.fields| - i
  {
    if i == |a.fields| then Some(converted)
    else
      var field :- FieldFrom(a.fields[i]);
      FieldsFrom(a, i + 1, Insert(converted, field.fieldName, field))
  }

  function ObjectFrom(a: ObjectAssertionAst): Option<ObjectAssertion>
    decreases a, |a.fields| + 1
  {
    var fields :- FieldsFrom(a, 0, []);
    Some(ObjectAssertion(a.mode, fields))
  }

  method ConvertObjectAssertion(a: ObjectAssertionAst) returns (r: Option<ObjectAssertion>)
    ensures r == ObjectFrom(a)
  {
    var fields: Entries<FieldAssertion> := [];
    var i := 0;
    while i < |a.fields|
      invariant i <= |a.fields| && FieldsFrom(a, i, fields) == FieldsFrom(a, 0, [])
    {
      var field := FieldFrom(a.fields[i]);
      if field.None? {
        return None;
      }
      fields := Insert(fields, field.value.fieldName, field.value);
      i := i + 1;
    }
    return Some(ObjectAssertion(a.mode, fields));
  }

  function BodyFrom(body: BodyAssertionAst): Option<BodyAssertion> {
    match body
    case EmptyBody => Some(EmptyAssertion)
    case TextExactBody(text) => Some(TextBodyAssertion(ExactText(text)))
    case TextContainsBody(text) => Some(TextBodyAssertion(ContainsText(text)))
    case ObjectBody(shape) =>
      var converted :- ObjectFrom(shape);
      Some(JsonAssertion(converted))
  }

  function HeaderFrom(entry: ResponseHeaderAst): HeaderAssertion {
    match entry
    case ExistsAst(_) => Exists
    case ExactAst(_, text) => Exact(text)
    case ContainsAst(_, text) => Contains(text)
  }

  function HeadersFrom(entries: seq<ResponseHeaderAst>): (r: Entries<HeaderAssertion>)
    ensures |r| == |entries| && forall i | 0 <= i < |r| :: r[i] == (entries[i].name, HeaderFrom(entries[i]))
  {
    seq(|entries|, i requires 0 <= i < |entries| => (entries[i].name, HeaderFrom(entries[i])))
  }

  function WithExpectationSection(expectation: ResponseExpectation, section: ExpectationSection)
    : Option<ResponseExpectation>
  {
    match section
    case StatusSection(status) =>
      if 0 <= status < 0x1_0000 then Some(expectation.(status := Some(status))) else None
    case HeadersSection(entries) =>
      Some(expectation.(headers := InsertAll(expectation.headers, HeadersFrom(entries))))
    case BodySection(body) =>
      var converted :- BodyFrom(body);
      Some(expectation.(body := Some(converted)))
  }

  function WithExpectationSections(expectation: ResponseExpectation, sections: seq<ExpectationSection>)
    : Option<ResponseExpectation>
    decreases |sections|
  {
    if sections == [] then Some(expectation)
    else
      var next :- WithExpectationSection(expectation, sections[0]);
      WithExpectationSections(next, sections[1..])
  }

  function ExpectationFrom(expectation: ExpectationAst): Option<ResponseExpectation> {
    WithExpectationSections(ResponseExpectation(None, [], None), expectation.sections)
  }

  method InsertHeaders(into: Entries<HeaderAssertion>, entries: seq<ResponseHeaderAst>)
    returns (r: Entries<HeaderAssertion>)
    ensures r == InsertAll(into, HeadersFrom(entries))
  {
    r := into;
    var i := 0;
    while i < |entries|
      invariant i <= |entries|
      invariant InsertAll(r, HeadersFrom(entries[i..])) == InsertAll(into, HeadersFrom(entries))
    {
      assert HeadersFrom(entries[i..])[1..] == HeadersFrom(entries[i + 1..]);
      r := Insert(r, entries[i].name, HeaderFrom(entries[i]));
      i := i + 1;
    }
  }

  method ConvertExpectation(expectation: ExpectationAst) returns (r: Option<ResponseExpectation>)
    ensures r == ExpectationFrom(expectation)
  {
    var converted := ResponseExpectation(None, [], None);
    var sections := expectation.sections;
    var i := 0;
    while i < |sections|
      invariant i <= |sections|
      invariant WithExpectationSections(converted, sections[i..]) == ExpectationFrom(expectation)
    {
      assert sections[i..][1..] == sections[i + 1..];
      match sections[i] {
        case StatusSection(status) =>
          if !(0 <= status < 0x1_0000) {
            return None;
          }
          converted := converted.(status := Some(status));
        case HeadersSection(entries) =>
          var headers := InsertHeaders(converted.headers, entries);
          converted := converted.(headers := headers);
        case BodySection(body) =>
          var assertion := BodyFrom(body);
          if assertion.None? {
            return None;
          }
          converted := converted.(body := assertion);
      }
      i := i + 1;
    }
    return Some(converted);
  }

  // ---- tests and suites ----

  function TestFrom(test: TestAst): Option<TestCase> {
    if test.requests == [] || test.expectations == [] then None
    else
      var expectation :- ExpectationFrom(test.expectations[0]);
      Some(TestCase(test.name, RequestFrom(test.requests[0]), expectation))
  }

  function TestsFrom(tests: seq<TestAst>): (r: Option<seq<TestCase>>)
    ensures r.Some? <==> forall i | 0 <= i < |tests| :: TestFrom(tests[i]).Some?
    ensures r.Some? ==> |r.value| == |tests| && forall i | 0 <= i < |tests| :: TestFrom(tests[i]) == Some(r.value[i])
    decreases |tests|
  {
    if tests == [] then Some([])
    else
      var first := TestFrom(tests[0]);
      var rest := TestsFrom(tests[1..]);
      assert tests == [tests[0]] + tests[1..];
      if first.None? || rest.None? then None else Some([first.value] + rest.value)
  }

  function BlockFrom(block: BlockAst): Option<SuiteBlock> {
    match block
    case CoreAst(tests) =>
      var converted :- TestsFrom(tests);
      Some(Core(converted))
    case PipelineAst(name, tests) =>
      var converted :- TestsFrom(tests);
      Some(Pipeline(name, converted))
    case StandaloneAst(test) =>
      var converted :- TestFrom(test);
      Some(Test(converted))
  }

  function BlocksFrom(blocks: seq<BlockAst>): (r: Option<seq<SuiteBlock>>)
    ensures r.Some? <==> forall i | 0 <= i < |blocks| :: BlockFrom(blocks[i]).Some?
    ensures r.Some? ==> |r.value| == |blocks| && forall i | 0 <= i < |blocks| :: BlockFrom(blocks[i]) == Some(r.value[i])
    decreases |blocks|
  {
    if blocks == [] then Some([])
    else
      var first := BlockFrom(blocks[0]);
      var rest := BlocksFrom(blocks[1..]);
      assert blocks == [blocks[0]] + blocks[1..];
      if first.None? || rest.None? then None else Some([first.value] + rest.value)
  }

  function SuiteFrom(ast: SuiteAst): Option<TestSuite> {
    var blocks :- BlocksFrom(ast.blocks);
    Some(TestSuite(None, blocks))
  }
}
