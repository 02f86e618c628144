/** Suites as the executor sees them, crates/rettp-domain/src. Interpolated text is kept raw. */
module Domain {
  import opened Wrappers
  import opened IndexMap
  import opened JsonValues
  import opened Expectation

  /** A binary64: a finite number by its value, or any infinity or NaN. */
  datatype Float64 = Finite(value: real) | NonFinite

  datatype Value =
    | StringValue(raw: string)
    | IntegerValue(n: I64)
    | NumberValue(f: Float64)
    | BooleanValue(b: bool)
    | NullValue
    | ArrayValue(items: seq<Value>)
    | ObjectValue(fields: Entries<Value>)

  datatype HttpMethod = GET | POST | PUT | PATCH | DELETE | HEAD | OPTIONS

  datatype RequestBody =
    | JsonRequest(value: Value)
    | TextRequest(raw: string)
    | FormRequest(fields: Entries<Value>)
    | BinaryRequest(bytes: seq<bv8>)

  datatype HttpRequestSpec = HttpRequestSpec(
    verb: HttpMethod,
    path: string,
    headers: Entries<Value>,
    query: Entries<Value>,
    body: Option<RequestBody>,
    timeoutMs: Option<nat>)

  datatype HeaderAssertion = Exists | Exact(raw: string) | Contains(raw: string)

  datatype TextAssertion = ExactText(raw: string) | ContainsText(raw: string)

  datatype ObjectAssertion = ObjectAssertion(mode: MatchMode, fields: Entries<FieldAssertion>)

  datatype FieldAssertion = FieldAssertion(
    fieldName: string,
    expectedType: ExpectedType,
    expectedValue: Option<Value>,
    nested: Option<ObjectAssertion>,
    capture: Option<string>)

  datatype BodyAssertion = JsonAssertion(shape: ObjectAssertion) | TextBodyAssertion(text: TextAssertion) | EmptyAssertion

  datatype ResponseExpectation = ResponseExpectation(
    status: Option<int>,
    headers: Entries<HeaderAssertion>,
    body: Option<BodyAssertion>)

  datatype TestCase = TestCase(name: string, request: HttpRequestSpec, expectation: ResponseExpectation)

  datatype SuiteBlock =
    | Core(tests: seq<TestCase>)
    | Pipeline(name: string, tests: seq<TestCase>)
    | Test(test: TestCase)

  datatype TestSuite = TestSuite(name: Option<string>, blocks: seq<SuiteBlock>)

  datatype ResolvedValue =
    | StringResolved(text: string)
    | IntegerResolved(n: I64)
    | UnsignedResolved(u: JsonInt)
    | NumberResolved(value: real)
    | BooleanResolved(b: bool)
    | NullResolved
    | ArrayResolved(items: seq<ResolvedValue>)
    | ObjectResolved(fields: Entries<ResolvedValue>)

  datatype ResolvedRequestBody =
    | JsonResolved(value: ResolvedValue)
    | TextResolved(text: string)
    | FormResolved(fields: Entries<ResolvedValue>)
    | BinaryResolved(bytes: seq<bv8>)

  datatype ResolvedHttpRequest = ResolvedHttpRequest(
    verb: HttpMethod,
    path: string,
    headers: Entries<ResolvedValue>,
    query: Entries<ResolvedValue>,
    body: Option<ResolvedRequestBody>,
    timeoutMs: Option<nat>)
}
