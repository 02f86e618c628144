/** Which suites are well formed, said declaratively; validation accepts exactly these. */
module WellFormed {
  import opened Wrappers
  import opened Text
  import opened IndexMap
  import opened JsonValues
  import opened Expectation
  import opened Domain
  import opened Ast
  import opened Template
  import opened ValidationSpec

  // ---- values ----

  ghost predicate ValueOk(value: ValueAst, scope: set<string>, depth: nat, limit: nat)
    decreases value
  {
    match value
    case StringAst(raw) => Closed(raw, scope)
    case ArrayAst(items) =>
      depth < limit && forall i | 0 <= i < |items| :: ValueOk(items[i], scope, depth + 1, limit)
    case ObjectAst(entries) =>
      && depth < limit
      && KeysOk(entries)
      && forall i | 0 <= i < |entries| :: ValueOk(entries[i].1, scope, depth + 1, limit)
    case _ => true
  }

  ghost predicate KeysOk(entries: Entries<ValueAst>) {
    Distinct(entries) && forall i | 0 <= i < |entries| :: entries[i].0 != ""
  }

  ghost predicate HeaderKeysOk(entries: Entries<ValueAst>) {
    && (forall i, j | 0 <= i < j < |entries| :: Lower(entries[i].0) != Lower(entries[j].0))
    && forall i | 0 <= i < |entries| :: entries[i].0 != ""
  }

  ghost predicate EntriesOk(entries: Entries<ValueAst>, scope: set<string>, depth: nat, limit: nat) {
    forall i | 0 <= i < |entries| :: ValueOk(entries[i].1, scope, depth, limit)
  }

  // ---- requests ----

  datatype SectionKind = HeaderKind | QueryKind | BodyKind | StatusKind

  function KindOf(section: RequestSection): SectionKind {
    match section
    case RequestHeaders(_) => HeaderKind
    case RequestQuery(_) => QueryKind
    case RequestBodySection(_) => BodyKind
  }

  ghost predicate SectionOk(verb: HttpMethod, section: RequestSection, scope: set<string>, limit: nat) {
    match section
    case RequestHeaders(entries) => HeaderKeysOk(entries) && EntriesOk(entries, scope, 0, limit)
    case RequestQuery(entries) => KeysOk(entries) && EntriesOk(entries, scope, 0, limit)
    case RequestBodySection(entries) => MethodAllowsBody(verb) && ValueOk(ObjectAst(entries), scope, 0, limit)
  }

  ghost predicate RequestOk(request: RequestAst, scope: set<string>, limit: nat) {
    && request.path != "" && Closed(request.path, scope)
    && (forall i, j | 0 <= i < j < |request.sections| :: KindOf(request.sections[i]) != KindOf(request.sections[j]))
    && forall i | 0 <= i < |request.sections| :: SectionOk(request.verb, request.sections[i], scope, limit)
  }

  // ---- expectations ----

  ghost predicate FieldOk(field: FieldAssertionAst, scope: set<string>, depth: nat, limit: nat)
    decreases field, 1
  {
    && (field.expectedType.Some? || field.expectedValue.Some? || field.nested.Some?)
    && (field.expectedValue.Some? ==>
          && (field.expectedType.Some? ==> TypeAccepts(field.expectedType.value, field.expectedValue.value))
          && ValueOk(field.expectedValue.value, scope, depth, limit))
    && (field.nested.Some? ==>
          && field.expectedType == Some(TObject)
          && field.nested.value.mode == MatchPartial
          && AssertionOk(field.nested.value, scope, depth, limit))
    && (field.capture.Some? ==> field.expectedType.Some? && ValidVariableName(field.capture.value))
  }

  ghost predicate AssertionOk(a: ObjectAssertionAst, scope: set<string>, depth: nat, limit: nat)
    decreases a, 1
  {
    && depth < limit
    && (forall i, j | 0 <= i < j < |a.fields| :: a.fields[i].name != a.fields[j].name)
    && (forall i | 0 <= i < |a.fields| :: a.fields[i].name != "")
    && forall i | 0 <= i < |a.fields| :: FieldOk(a.fields[i], scope, depth + 1, limit)
  }

  /** Captured names in declaration order, outer before inner. */
  function CaptureNamesFrom(a: ObjectAssertionAst, i: nat): seq<string>
    requires i <= |a.fields|
    decreases a, |a.fields| - i
  {
    if i == |a.fields| then [] else FieldCaptureNames(a.fields[i]) + CaptureNamesFrom(a, i + 1)
  }

  function FieldCaptureNames(field: FieldAssertionAst): seq<string>
    decreases field
  {
    (if field.capture.Some? then [field.capture.value] else [])
    + (if field.nested.Some? then CaptureNamesFrom(field.nested.value, 0) else [])
  }

  function BodyCaptureNames(body: BodyAssertionAst): seq<string> {
    if body.ObjectBody? then CaptureNamesFrom(body.shape, 0) else []
  }

  /** Items that are all different and none of them taken. */
  ghost predicate FreshNames<T>(names: seq<T>, taken: set<T>) {
    && (forall i | 0 <= i < |names| :: names[i] !in taken)
    && forall i, j | 0 <= i < j < |names| :: names[i] != names[j]
  }

  function NameSet<T(==)>(names: seq<T>): set<T> {
    set i | 0 <= i < |names| :: names[i]
  }

  function ExpectationKind(section: ExpectationSection): SectionKind {
    match section
    case StatusSection(_) => StatusKind
    case HeadersSection(_) => HeaderKind
    case BodySection(_) => BodyKind
  }

  ghost predicate ResponseHeadersOk(entries: seq<ResponseHeaderAst>, scope: set<string>) {
    && (forall i, j | 0 <= i < j < |entries| :: Lower(entries[i].name) != Lower(entries[j].name))
    && (forall i | 0 <= i < |entries| :: entries[i].name != "")
    && forall i | 0 <= i < |entries| :: entries[i].ExistsAst? || Closed(entries[i].text, scope)
  }

  ghost predicate BodyOk(body: BodyAssertionAst, scope: set<string>, limit: nat) {
    match body
    case EmptyBody => true
    case ObjectBody(shape) => AssertionOk(shape, scope, 0, limit)
    case _ => Closed(body.text, scope)
  }

  ghost predicate ExpectationSectionOk(section: ExpectationSection, scope: set<string>, limit: nat) {
    match section
    case StatusSection(status) => 100 <= status <= 599
    case HeadersSection(entries) => ResponseHeadersOk(entries, scope)
    case BodySection(body) => BodyOk(body, scope, limit)
  }

  /** The captures of all body sections; a well-formed expectation has at most one. */
  function SectionsCaptureNames(sections: seq<ExpectationSection>): seq<string> {
    if sections == [] then []
    else
      (if sections[0].BodySection? then BodyCaptureNames(sections[0].body) else [])
      + SectionsCaptureNames(sections[1..])
  }

  ghost predicate ExpectationOk(expectation: ExpectationAst, scope: set<string>, limit: nat) {
    var sections := expectation.sections;
    && (forall i, j | 0 <= i < j < |sections| :: ExpectationKind(sections[i]) != ExpectationKind(sections[j]))
    && (forall i | 0 <= i < |sections| :: ExpectationSectionOk(sections[i], scope, limit))
    && FreshNames(SectionsCaptureNames(sections), scope)
  }

  // ---- tests and suites ----

  function TestCaptureNames(test: TestAst): seq<string> {
    if test.expectations == [] then [] else SectionsCaptureNames(test.expectations[0].sections)
  }

  ghost predicate TestOk(test: TestAst, scope: set<string>, limit: nat) {
    && test.name != ""
    && |test.requests| == 1 && RequestOk(test.requests[0], scope, limit)
    && |test.expectations| == 1 && ExpectationOk(test.expectations[0], scope, limit)
  }

  function ScopeAfter(test: TestAst, scope: set<string>): set<string> {
    scope + NameSet(TestCaptureNames(test))
  }

  /** The scope in which test `i` of a sequence is checked. */
  function ScopeBefore(tests: seq<TestAst>, i: nat, scope: set<string>): set<string>
    requires i <= |tests|
  {
    if i == 0 then scope else ScopeAfter(tests[i - 1], ScopeBefore(tests, i - 1, scope))
  }

  ghost predicate TestsOk(tests: seq<TestAst>, scope: set<string>, limit: nat) {
    forall i | 0 <= i < |tests| :: TestOk(tests[i], ScopeBefore(tests, i, scope), limit)
  }

  /** The names visible to everything outside the core. */
  function AfterCore(ast: SuiteAst, predefined: set<string>): set<string> {
    match FirstCore(ast.blocks, 0)
    case None => predefined
    case Some(i) => ScopeBefore(ast.blocks[i].tests, |ast.blocks[i].tests|, predefined)
  }

  ghost predicate BlockOk(block: BlockAst, predefined: set<string>, afterCore: set<string>, limit: nat) {
    match block
    case CoreAst(tests) => TestsOk(tests, predefined, limit)
    case PipelineAst(name, tests) => name != "" && tests != [] && TestsOk(tests, afterCore, limit)
    case StandaloneAst(test) => TestOk(test, afterCore, limit)
  }

  ghost predicate AtMostOneCore(blocks: seq<BlockAst>) {
    forall i, j | 0 <= i < j < |blocks| :: !(blocks[i].CoreAst? && blocks[j].CoreAst?)
  }

  ghost predicate SuiteOk(ast: SuiteAst, predefined: set<string>, limit: nat) {
    && AtMostOneCore(ast.blocks)
    && forall i | 0 <= i < |ast.blocks| ::
         BlockOk(ast.blocks[i], predefined, AfterCore(ast, predefined), limit)
  }
}
