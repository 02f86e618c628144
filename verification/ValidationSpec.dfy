/**
 * The diagnostics of semantic validation, in traversal order: each function appends what one construct adds to the
 * errors found before it.
 */
module ValidationSpec {
  import opened Wrappers
  import opened Text
  import opened IndexMap
  import opened JsonValues
  import opened Expectation
  import opened Domain
  import opened Ast
  import opened Template

  datatype DuplicateKind =
    | DupCoreBlock
    | DupRequest
    | DupExpectation
    | DupRequestHeaders
    | DupRequestQuery
    | DupRequestBody
    | DupRequestHeader
    | DupQueryParameter
    | DupResponseStatus
    | DupResponseHeaders
    | DupResponseBody
    | DupResponseHeader
    | DupAssertionField
    | DupObjectKey

  datatype ErrorKind =
    | EmptyPipelineName
    | EmptyPipeline
    | EmptyTestName
    | InvalidRequestCount
    | InvalidExpectationCount
    | EmptyRequestPath
    | RequestBodyNotAllowed(verb: HttpMethod)
    | InvalidHttpStatus(status: int)
    | MissingFieldAssertion(field: string)
    | TypeValueMismatch(field: string, expected: ExpectedType, actual: ExpectedType)
    | NestedAssertionRequiresObject(field: string)
    | NestedAssertionMustBePartial(field: string)
    | CaptureRequiresType(name: string)
    | DuplicateVariable(name: string)
    | InvalidVariableName(name: string)
    | EmptyInterpolation
    | UnterminatedInterpolation
    | UndefinedVariable(name: string)
    | EmptyNameOf(kind: DuplicateKind)
    | Duplicate(kind: DuplicateKind)
    | DuplicateNamed(kind: DuplicateKind, name: string)
    | NestingLimitExceeded(limit: nat)

  type Errors = seq<ErrorKind>

  function AddIf(errors: Errors, condition: bool, kind: ErrorKind): Errors {
    if condition then errors + [kind] else errors
  }

  // ---- text and values ----

  function VariableErrors(errors: Errors, names: seq<string>, scope: set<string>): Errors
    decreases |names|
  {
    if names == [] then errors
    else
      var next :=
        if !ValidVariableName(names[0]) then errors + [InvalidVariableName(names[0])]
        else AddIf(errors, names[0] !in scope, UndefinedVariable(names[0]));
      VariableErrors(next, names[1..], scope)
  }

  function TextErrors(errors: Errors, raw: string, scope: set<string>): Errors {
    match Names(raw)
    case Err(EmptyName) => errors + [EmptyInterpolation]
    case Err(Unterminated) => errors + [UnterminatedInterpolation]
    case Ok(names) => VariableErrors(errors, names, scope)
  }

  function NameErrors(errors: Errors, name: string, kind: DuplicateKind, names: set<string>): Errors {
    AddIf(AddIf(errors, name == "", EmptyNameOf(kind)), name in names, DuplicateNamed(kind, name))
  }

  /** Header names collide regardless of ASCII case, but are reported as written. */
  function HeaderNameErrors(errors: Errors, name: string, kind: DuplicateKind, names: set<string>): Errors {
    AddIf(AddIf(errors, name == "", EmptyNameOf(kind)), Lower(name) in names, DuplicateNamed(kind, name))
  }

  function ValueErrors(errors: Errors, value: ValueAst, scope: set<string>, depth: nat, limit: nat): Errors
    decreases value
  {
    match value
    case StringAst(raw) => TextErrors(errors, raw, scope)
    case ArrayAst(items) =>
      if depth >= limit then errors + [NestingLimitExceeded(limit)]
      else ItemsErrors(errors, items, scope, depth + 1, limit)
    case ObjectAst(entries) =>
      if depth >= limit then errors + [NestingLimitExceeded(limit)]
      else EntriesErrors(errors, entries, scope, depth + 1, DupObjectKey, {}, limit)
    case _ => errors
  }

  function ItemsErrors(errors: Errors, items: seq<ValueAst>, scope: set<string>, depth: nat, limit: nat): Errors
    decreases items
  {
    if items == [] then errors
    else ItemsErrors(ValueErrors(errors, items[0], scope, depth, limit), items[1..], scope, depth, limit)
  }

  function EntriesErrors(
    errors: Errors, entries: Entries<ValueAst>, scope: set<string>, depth: nat, kind: DuplicateKind,
    names: set<string>, limit: nat): Errors
    decreases entries
  {
    if entries == [] then errors
    else
      EntriesErrors(
        EntryErrors(NameErrors(errors, entries[0].0, kind, names), entries[0], scope, depth, limit),
        entries[1..], scope, depth, kind, names + {entries[0].0}, limit)
  }

  function EntryErrors(errors: Errors, entry: (string, ValueAst), scope: set<string>, depth: nat, limit: nat): Errors
    decreases entry
  {
    ValueErrors(errors, entry.1, scope, depth, limit)
  }

  // ---- requests ----

  /** The request validator's local variables. */
  datatype RequestScan = RequestScan(
    errors: Errors, sawHeaders: bool, sawQuery: bool, sawBody: bool, headerNames: set<string>, queryNames: set<string>)

  function RequestHeadersErrors(
    errors: Errors, entries: Entries<ValueAst>, scope: set<string>, names: set<string>, limit: nat): Errors
    decreases |entries|
  {
    if entries == [] then errors
    else
      RequestHeadersErrors(
        ValueErrors(HeaderNameErrors(errors, entries[0].0, DupRequestHeader, names), entries[0].1, scope, 0, limit),
        entries[1..], scope, names + {Lower(entries[0].0)}, limit)
  }

  function LowerKeys<V>(entries: Entries<V>): set<string> {
    set i | 0 <= i < |entries| :: Lower(entries[i].0)
  }

  function SectionScan(
    scan: RequestScan, verb: HttpMethod, section: RequestSection, scope: set<string>, limit: nat): RequestScan
  {
    match section
    case RequestHeaders(entries) =>
      var errors := AddIf(scan.errors, scan.sawHeaders, Duplicate(DupRequestHeaders));
      scan.(errors := RequestHeadersErrors(errors, entries, scope, scan.headerNames, limit),
            sawHeaders := true,
            headerNames := scan.headerNames + LowerKeys(entries))
    case RequestQuery(entries) =>
      var errors := AddIf(scan.errors, scan.sawQuery, Duplicate(DupRequestQuery));
      scan.(errors := EntriesErrors(errors, entries, scope, 0, DupQueryParameter, scan.queryNames, limit),
            sawQuery := true,
            queryNames := scan.queryNames + Keys(entries))
    case RequestBodySection(entries) =>
      var errors := AddIf(
        AddIf(scan.errors, scan.sawBody, Duplicate(DupRequestBody)),
        !MethodAllowsBody(verb), RequestBodyNotAllowed(verb));
      scan.(errors := ValueErrors(errors, ObjectAst(entries), scope, 0, limit), sawBody := true)
  }

  function SectionsScan(
    scan: RequestScan, verb: HttpMethod, sections: seq<RequestSection>, scope: set<string>, limit: nat): RequestScan
    decreases |sections|
  {
    if sections == [] then scan
    else SectionsScan(SectionScan(scan, verb, sections[0], scope, limit), verb, sections[1..], scope, limit)
  }

  function RequestErrors(errors: Errors, request: RequestAst, scope: set<string>, limit: nat): Errors {
    var started := TextErrors(AddIf(errors, request.path == "", EmptyRequestPath), request.path, scope);
    SectionsScan(RequestScan(started, false, false, false, {}, {}), request.verb, request.sections, scope, limit).errors
  }

  // ---- expectations ----

  /** Errors together with the names captured so far. */
  datatype Progress = Progress(errors: Errors, captures: set<string>)

  function CaptureProgress(p: Progress, field: FieldAssertionAst, scope: set<string>): Progress {
    if field.capture.None? then p
    else
      var name := field.capture.value;
      var errors := AddIf(p.errors, field.expectedType.None?, CaptureRequiresType(name));
      if !ValidVariableName(name) then p.(errors := errors + [InvalidVariableName(name)])
      else if name in scope then p.(errors := errors + [DuplicateVariable(name)])
      else if name in p.captures then p.(errors := errors + [DuplicateVariable(name)])
      else Progress(errors, p.captures + {name})
  }

  function FieldHeadErrors(errors: Errors, field: FieldAssertionAst, scope: set<string>, depth: nat, limit: nat): Errors {
    var missing := AddIf(
      errors, field.expectedType.None? && field.expectedValue.None? && field.nested.None?,
      MissingFieldAssertion(field.name));
    if field.expectedValue.None? then missing
    else
      var value := field.expectedValue.value;
      var typed :=
        if field.expectedType.Some? && !TypeAccepts(field.expectedType.value, value) then
          missing + [TypeValueMismatch(field.name, field.expectedType.value, InferType(value))]
        else missing;
      ValueErrors(typed, value, scope, depth, limit)
  }

  function NestedHeadErrors(errors: Errors, field: FieldAssertionAst): Errors
    requires field.nested.Some?
  {
    AddIf(
      AddIf(errors, field.expectedType != Some(TObject), NestedAssertionRequiresObject(field.name)),
      field.nested.value.mode != MatchPartial, NestedAssertionMustBePartial(field.name))
  }

  function FieldProgress(p: Progress, field: FieldAssertionAst, scope: set<string>, depth: nat, limit: nat): Progress
    decreases field, 1, 0
  {
    var head := p.(errors := FieldHeadErrors(p.errors, field, scope, depth, limit));
    var nested :=
      if field.nested.None? then head
      else
        AssertionProgress(
          head.(errors := NestedHeadErrors(head.errors, field)), field.nested.value, scope, depth, limit);
    CaptureProgress(nested, field, scope)
  }

  function AssertionProgress(p: Progress, a: ObjectAssertionAst, scope: set<string>, depth: nat, limit: nat): Progress
    decreases a, 1, 0
  {
    if depth >= limit then p.(errors := p.errors + [NestingLimitExceeded(limit)])
    else FieldsProgress(p, a, 0, {}, scope, depth + 1, limit)
  }

  function FieldsProgress(
    p: Progress, a: ObjectAssertionAst, i: nat, names: set<string>, scope: set<string>, depth: nat, limit: nat): Progress
    requires i <= |a.fields|
    decreases a, 0, |a.fields| - i
  {
    if i == |a.fields| then p
    else
      var named := p.(errors := NameErrors(p.errors, a.fields[i].name, DupAssertionField, names));
      FieldsProgress(
        FieldProgress(named, a.fields[i], scope, depth, limit), a, i + 1, names + {a.fields[i].name}, scope, depth,
        limit)
  }

  datatype ExpectationScan = ExpectationScan(
    progress: Progress, sawStatus: bool, sawHeaders: bool, sawBody: bool, headerNames: set<string>)

  function ResponseHeadersErrors(
    errors: Errors, entries: seq<ResponseHeaderAst>, scope: set<string>, names: set<string>): Errors
    decreases |entries|
  {
    if entries == [] then errors
    else
      var named := HeaderNameErrors(errors, entries[0].name, DupResponseHeader, names);
      ResponseHeadersErrors(
        if entries[0].ExistsAst? then named else TextErrors(named, entries[0].text, scope),
        entries[1..], scope, names + {Lower(entries[0].name)})
  }

  function LowerNames(entries: seq<ResponseHeaderAst>): set<string> {
    set i | 0 <= i < |entries| :: Lower(entries[i].name)
  }

  function BodyProgress(p: Progress, body: BodyAssertionAst, scope: set<string>, limit: nat): Progress {
    match body
    case EmptyBody => p
    case ObjectBody(shape) => AssertionProgress(p, shape, scope, 0, limit)
    case _ => p.(errors := TextErrors(p.errors, body.text, scope))
  }

  function ExpectationSectionScan(
    scan: ExpectationScan, section: ExpectationSection, scope: set<string>, limit: nat): ExpectationScan
  {
    var p := scan.progress;
    match section
    case StatusSection(status) =>
      var errors := AddIf(p.errors, scan.sawStatus, Duplicate(DupResponseStatus));
      scan.(progress := p.(errors := AddIf(errors, !(100 <= status <= 599), InvalidHttpStatus(status))),
            sawStatus := true)
    case HeadersSection(entries) =>
      var errors := AddIf(p.errors, scan.sawHeaders, Duplicate(DupResponseHeaders));
      scan.(progress := p.(errors := ResponseHeadersErrors(errors, entries, scope, scan.headerNames)),
            sawHeaders := true,
            headerNames := scan.headerNames + LowerNames(entries))
    case BodySection(body) =>
      var errors := AddIf(p.errors, scan.sawBody, Duplicate(DupResponseBody));
      scan.(progress := BodyProgress(p.(errors := errors), body, scope, limit), sawBody := true)
  }

  function ExpectationSectionsScan(
    scan: ExpectationScan, sections: seq<ExpectationSection>, scope: set<string>, limit: nat): ExpectationScan
    decreases |sections|
  {
    if sections == [] then scan
    else ExpectationSectionsScan(ExpectationSectionScan(scan, sections[0], scope, limit), sections[1..], scope, limit)
  }

  function ExpectationProgress(p: Progress, expectation: ExpectationAst, scope: set<string>, limit: nat): Progress {
    ExpectationSectionsScan(ExpectationScan(p, false, false, false, {}), expectation.sections, scope, limit).progress
  }

  // ---- tests and suites ----

  function RepeatError(errors: Errors, count: nat, kind: ErrorKind): Errors
    decreases count
  {
    if count <= 1 then errors else RepeatError(errors + [kind], count - 1, kind)
  }

  function RequestsErrors(errors: Errors, requests: seq<RequestAst>, scope: set<string>, limit: nat): Errors
    decreases |requests|
  {
    if requests == [] then errors
    else RequestsErrors(RequestErrors(errors, requests[0], scope, limit), requests[1..], scope, limit)
  }

  function ExpectationsProgress(p: Progress, expectations: seq<ExpectationAst>, scope: set<string>, limit: nat): Progress
    decreases |expectations|
  {
    if expectations == [] then p
    else ExpectationsProgress(ExpectationProgress(p, expectations[0], scope, limit), expectations[1..], scope, limit)
  }

  function TestCountErrors(errors: Errors, test: TestAst): Errors {
    var named := AddIf(errors, test.name == "", EmptyTestName);
    var requests := RepeatError(
      AddIf(named, |test.requests| != 1, InvalidRequestCount), |test.requests|, Duplicate(DupRequest));
    RepeatError(
      AddIf(requests, |test.expectations| != 1, InvalidExpectationCount), |test.expectations|,
      Duplicate(DupExpectation))
  }

  /** The errors of one test, and the scope after it: captures become visible to what follows. */
  function TestProgress(errors: Errors, test: TestAst, scope: set<string>, limit: nat): (Errors, set<string>) {
    var requested := RequestsErrors(TestCountErrors(errors, test), test.requests, scope, limit);
    var done := ExpectationsProgress(Progress(requested, {}), test.expectations, scope, limit);
    (done.errors, scope + done.captures)
  }

  function TestsProgress(errors: Errors, tests: seq<TestAst>, scope: set<string>, limit: nat): (Errors, set<string>)
    decreases |tests|
  {
    if tests == [] then (errors, scope)
    else
      var (next, grown) := TestProgress(errors, tests[0], scope, limit);
      TestsProgress(next, tests[1..], grown, limit)
  }

  /** The first core block from index `i` on, if any. */
  function FirstCore(blocks: seq<BlockAst>, i: nat): (r: Option<nat>)
    requires i <= |blocks|
    ensures r.Some? ==> i <= r.value < |blocks| && blocks[r.value].CoreAst? && forall k | i <= k < r.value :: !blocks[k].CoreAst?
    ensures r.None? ==> forall k | i <= k < |blocks| :: !blocks[k].CoreAst?
    decreases |blocks| - i
  {
    if i == |blocks| then None else if blocks[i].CoreAst? then Some(i) else FirstCore(blocks, i + 1)
  }

  /** One error for every core block after the first. */
  function CoreErrors(errors: Errors, blocks: seq<BlockAst>, seen: bool): Errors
    decreases |blocks|
  {
    if blocks == [] then errors
    else if blocks[0].CoreAst? then CoreErrors(AddIf(errors, seen, Duplicate(DupCoreBlock)), blocks[1..], true)
    else CoreErrors(errors, blocks[1..], seen)
  }

  /** A block other than the first core: later cores see only the predefined names, the rest also the core's captures. */
  function BlockErrors(errors: Errors, block: BlockAst, global: set<string>, afterCore: set<string>, limit: nat): Errors {
    match block
    case CoreAst(tests) => TestsProgress(errors, tests, global, limit).0
    case PipelineAst(name, tests) =>
      var checked := AddIf(AddIf(errors, name == "", EmptyPipelineName), tests == [], EmptyPipeline);
      TestsProgress(checked, tests, afterCore, limit).0
    case StandaloneAst(test) => TestProgress(errors, test, afterCore, limit).0
  }

  function BlocksErrorsFrom(
    errors: Errors, blocks: seq<BlockAst>, i: nat, firstCore: Option<nat>, global: set<string>, afterCore: set<string>,
    limit: nat): Errors
    requires i <= |blocks|
    decreases |blocks| - i
  {
    if i == |blocks| then errors
    else
      var next := if Some(i) == firstCore then errors else BlockErrors(errors, blocks[i], global, afterCore, limit);
      BlocksErrorsFrom(next, blocks, i + 1, firstCore, global, afterCore, limit)
  }

  function SuiteErrors(ast: SuiteAst, predefined: set<string>, limit: nat): Errors {
    var firstCore := FirstCore(ast.blocks, 0);
    var counted := CoreErrors([], ast.blocks, false);
    var (coreErrors, afterCore) :=
      if firstCore.Some? then
        TestsProgress(counted, ast.blocks[firstCore.value].tests, predefined, limit)
      else (counted, predefined);
    BlocksErrorsFrom(coreErrors, ast.blocks, 0, firstCore, predefined, afterCore, limit)
  }
}
