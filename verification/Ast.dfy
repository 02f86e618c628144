/**
 * The syntax tree, crates/rettp-parser/src/ast/nodes.rs, without source spans. Methods, assertion types and match modes
 * are the same enumerations as in the domain model, which the converter maps one to one.
 */
module Ast {
  import opened Wrappers
  import opened IndexMap
  import opened JsonValues
  import opened Expectation
  import opened Domain

  datatype ValueAst =
    | StringAst(text: string)
    | IntegerAst(n: I64)
    | NumberAst(f: Float64)
    | BooleanAst(b: bool)
    | NullAst
    | ArrayAst(items: seq<ValueAst>)
    | ObjectAst(entries: Entries<ValueAst>)

  datatype RequestSection =
    | RequestHeaders(entries: Entries<ValueAst>)
    | RequestQuery(entries: Entries<ValueAst>)
    | RequestBodySection(entries: Entries<ValueAst>)

  datatype RequestAst = RequestAst(verb: HttpMethod, path: string, sections: seq<RequestSection>)

  datatype ResponseHeaderAst =
    | ExistsAst(name: string)
    | ExactAst(name: string, text: string)
    | ContainsAst(name: string, text: string)

  datatype FieldAssertionAst = FieldAssertionAst(
    name: string,
    expectedType: Option<ExpectedType>,
    expectedValue: Option<ValueAst>,
    nested: Option<ObjectAssertionAst>,
    capture: Option<string>)

  datatype ObjectAssertionAst = ObjectAssertionAst(mode: MatchMode, fields: seq<FieldAssertionAst>)

  datatype BodyAssertionAst =
    | EmptyBody
    | TextExactBody(text: string)
    | TextContainsBody(text: string)
    | ObjectBody(shape: ObjectAssertionAst)

  datatype ExpectationSection =
    | StatusSection(status: I64)
    | HeadersSection(entries: seq<ResponseHeaderAst>)
    | BodySection(body: BodyAssertionAst)

  datatype ExpectationAst = ExpectationAst(sections: seq<ExpectationSection>)

  datatype TestAst = TestAst(name: string, requests: seq<RequestAst>, expectations: seq<ExpectationAst>)

  datatype BlockAst =
    | CoreAst(tests: seq<TestAst>)
    | PipelineAst(name: string, tests: seq<TestAst>)
    | StandaloneAst(test: TestAst)

  datatype SuiteAst = SuiteAst(blocks: seq<BlockAst>)

  /** `infer_expected_type`, which is also the validator's name for the type of a value. */
  function InferType(value: ValueAst): ExpectedType {
    match value
    case StringAst(_) => TString
    case IntegerAst(_) => TInteger
    case NumberAst(_) => TNumber
    case BooleanAst(_) => TBoolean
    case NullAst => TNull
    case ArrayAst(_) => TArray
    case ObjectAst(_) => TObject
  }

  predicate TypeAccepts(expected: ExpectedType, value: ValueAst) {
    if expected.TNumber? then value.IntegerAst? || value.NumberAst? else InferType(value) == expected
  }

  predicate MethodAllowsBody(verb: HttpMethod) {
    verb.POST? || verb.PUT? || verb.PATCH?
  }
}
