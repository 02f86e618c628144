/** Conversion of a well-formed suite is total, loses nothing, and keeps what execution relies on. */
module ConversionExact {
  import opened Wrappers
  import opened Text
  import opened IndexMap
  import opened JsonValues
  import opened Expectation
  import opened Domain
  import opened Ast
  import opened Template
  import opened ValidationSpec
  import opened WellFormed
  import opened Converter
  import opened ValidationExact
  import opened ResolverFacts
  import opened ResolvedShape
  import opened LiteralDepth

  // ---- the converted suite says the same, in the same order ----

  ghost predicate ValueFaithful(value: ValueAst, c: Value)
    decreases value
  {
    match value
    case StringAst(text) => c == StringValue(text)
    case IntegerAst(n) => c == IntegerValue(n)
    case NumberAst(f) => c == NumberValue(f)
    case BooleanAst(b) => c == BooleanValue(b)
    case NullAst => c == NullValue
    case ArrayAst(items) =>
      c.ArrayValue? && |c.items| == |items| && forall i | 0 <= i < |items| :: ValueFaithful(items[i], c.items[i])
    case ObjectAst(entries) =>
      && c.ObjectValue? && |c.fields| == |entries|
      && forall i | 0 <= i < |entries| ::
           entries[i].0 == c.fields[i].0 && ValueFaithful(entries[i].1, c.fields[i].1)
  }

  ghost predicate EntriesFaithful(entries: Entries<ValueAst>, c: Entries<Value>) {
    && |c| == |entries|
    && forall i | 0 <= i < |entries| :: entries[i].0 == c[i].0 && ValueFaithful(entries[i].1, c[i].1)
  }

  function SectionOf(sections: seq<RequestSection>, kind: SectionKind): Option<RequestSection> {
    if sections == [] then None
    else if KindOf(sections[0]) == kind then Some(sections[0])
    else SectionOf(sections[1..], kind)
  }

  ghost predicate RequestFaithful(request: RequestAst, c: HttpRequestSpec) {
    && c.verb == request.verb && c.path == request.path && c.timeoutMs == None
    && (match SectionOf(request.sections, HeaderKind)
        case None => c.headers == []
        case Some(section) => EntriesFaithful(section.entries, c.headers))
    && (match SectionOf(request.sections, QueryKind)
        case None => c.query == []
        case Some(section) => EntriesFaithful(section.entries, c.query))
    && (match SectionOf(request.sections, BodyKind)
        case None => c.body == None
        case Some(section) =>
          && c.body.Some? && c.body.value.JsonRequest? && c.body.value.value.ObjectValue?
          && EntriesFaithful(section.entries, c.body.value.value.fields))
  }

  ghost predicate FieldFaithful(field: FieldAssertionAst, c: FieldAssertion)
    decreases field
  {
    && c.fieldName == field.name
    && FieldTypeFrom(field) == Some(c.expectedType)
    && (field.expectedValue.Some? <==> c.expectedValue.Some?)
    && (field.expectedValue.Some? ==> ValueFaithful(field.expectedValue.value, c.expectedValue.value))
    && (field.nested.Some? <==> c.nested.Some?)
    && (field.nested.Some? ==> AssertionFaithful(field.nested.value, c.nested.value))
    && c.capture == field.capture
  }

  ghost predicate AssertionFaithful(a: ObjectAssertionAst, c: ObjectAssertion)
    decreases a
  {
    && c.mode == a.mode && |c.fields| == |a.fields|
    && forall i | 0 <= i < |a.fields| :: c.fields[i].0 == a.fields[i].name && FieldFaithful(a.fields[i], c.fields[i].1)
  }

  ghost predicate BodyFaithful(body: BodyAssertionAst, c: BodyAssertion) {
    match body
    case EmptyBody => c == EmptyAssertion
    case TextExactBody(text) => c == TextBodyAssertion(ExactText(text))
    case TextContainsBody(text) => c == TextBodyAssertion(ContainsText(text))
    case ObjectBody(shape) => c.JsonAssertion? && AssertionFaithful(shape, c.shape)
  }

  function ExpectationSectionOf(sections: seq<ExpectationSection>, kind: SectionKind): (r: Option<ExpectationSection>)
    ensures r.Some? ==> r.value in sections && ExpectationKind(r.value) == kind
  {
    if sections == [] then None
    else if ExpectationKind(sections[0]) == kind then Some(sections[0])
    else ExpectationSectionOf(sections[1..], kind)
  }

  ghost predicate ExpectationFaithful(expectation: ExpectationAst, c: ResponseExpectation) {
    && (match ExpectationSectionOf(expectation.sections, StatusKind)
        case None => c.status == None
        case Some(section) => c.status == Some(section.status))
    && (match ExpectationSectionOf(expectation.sections, HeaderKind)
        case None => c.headers == []
        case Some(section) =>
          && |c.headers| == |section.entries|
          && forall i | 0 <= i < |c.headers| :: c.headers[i] == (section.entries[i].name, HeaderFrom(section.entries[i])))
    && (match ExpectationSectionOf(expectation.sections, BodyKind)
        case None => c.body == None
        case Some(section) => c.body.Some? && BodyFaithful(section.body, c.body.value))
  }

  ghost predicate TestFaithful(test: TestAst, c: TestCase) {
    && |test.requests| == 1 && |test.expectations| == 1
    && c.name == test.name
    && RequestFaithful(test.requests[0], c.request)
    && ExpectationFaithful(test.expectations[0], c.expectation)
  }

  ghost predicate TestsFaithful(tests: seq<TestAst>, c: seq<TestCase>) {
    |c| == |tests| && forall i | 0 <= i < |tests| :: TestFaithful(tests[i], c[i])
  }

  ghost predicate BlockFaithful(block: BlockAst, c: SuiteBlock) {
    match block
    case CoreAst(tests) => c.Core? && TestsFaithful(tests, c.tests)
    case PipelineAst(name, tests) => c.Pipeline? && c.name == name && TestsFaithful(tests, c.tests)
    case StandaloneAst(test) => c.Test? && TestFaithful(test, c.test)
  }

  ghost predicate SuiteFaithful(ast: SuiteAst, c: TestSuite) {
    |c.blocks| == |ast.blocks| && forall i | 0 <= i < |ast.blocks| :: BlockFaithful(ast.blocks[i], c.blocks[i])
  }

  // ---- values and requests ----

  lemma CollectedInOrder<V>(entries: Entries<V>)
    requires Distinct(entries)
    ensures InsertAll([], entries) == entries
  {
    InsertAllOfNew([], entries);
    assert [] + entries == entries;
  }

  lemma {:induction false} ValueConverted(value: ValueAst, scope: set<string>, depth: nat, limit: nat)
    requires ValueOk(value, scope, depth, limit)
    ensures ValueFaithful(value, ValueFrom(value))
    decreases value
  {
    match value
    case ArrayAst(items) =>
      forall i | 0 <= i < |items| ensures ValueFaithful(items[i], ValueFrom(items[i])) {
        ValueConverted(items[i], scope, depth + 1, limit);
      }
    case ObjectAst(entries) =>
      EntriesFromAt(entries);
      CollectedInOrder(EntriesFrom(entries));
      forall i | 0 <= i < |entries| ensures ValueFaithful(entries[i].1, ValueFrom(entries[i].1)) {
        assert entries[i] in entries;
        ValueConverted(entries[i].1, scope, depth + 1, limit);
      }
    case _ =>
  }

  lemma EntriesConverted(entries: Entries<ValueAst>, scope: set<string>, depth: nat, limit: nat)
    requires EntriesOk(entries, scope, depth, limit) && Distinct(entries)
    ensures EntriesFaithful(entries, EntriesFrom(entries)) && InsertAll([], EntriesFrom(entries)) == EntriesFrom(entries)
  {
    EntriesFromAt(entries);
    CollectedInOrder(EntriesFrom(entries));
    forall i | 0 <= i < |entries| ensures ValueFaithful(entries[i].1, ValueFrom(entries[i].1)) {
      ValueConverted(entries[i].1, scope, depth, limit);
    }
  }

  /** A kind that has not come yet has left no trace in the converted request. */
  ghost predicate Untouched(c: HttpRequestSpec, sections: seq<RequestSection>) {
    && (SectionOf(sections, HeaderKind).Some? ==> c.headers == [])
    && (SectionOf(sections, QueryKind).Some? ==> c.query == [])
    && (SectionOf(sections, BodyKind).Some? ==> c.body == None)
  }

  lemma {:induction false} SectionOfNew(sections: seq<RequestSection>, kind: SectionKind)
    ensures SectionOf(sections, kind).None? <==> forall i | 0 <= i < |sections| :: KindOf(sections[i]) != kind
  {
    if sections != [] {
      SectionOfNew(sections[1..], kind);
      assert forall i | 1 <= i < |sections| :: sections[i] == sections[1..][i - 1];
      assert forall i | 0 <= i < |sections| - 1 :: sections[1..][i] == sections[i + 1];
    }
  }

  lemma {:induction false} SectionsConverted(
    c: HttpRequestSpec, verb: HttpMethod, sections: seq<RequestSection>, scope: set<string>, limit: nat)
    requires forall i, j | 0 <= i < j < |sections| :: KindOf(sections[i]) != KindOf(sections[j])
    requires forall i | 0 <= i < |sections| :: SectionOk(verb, sections[i], scope, limit)
    requires Untouched(c, sections)
    ensures var r := WithSections(c, sections);
            && r.verb == c.verb && r.path == c.path && r.timeoutMs == c.timeoutMs
            && (match SectionOf(sections, HeaderKind)
                case None => r.headers == c.headers
                case Some(section) => EntriesFaithful(section.entries, r.headers))
            && (match SectionOf(sections, QueryKind)
                case None => r.query == c.query
                case Some(section) => EntriesFaithful(section.entries, r.query))
            && (match SectionOf(sections, BodyKind)
                case None => r.body == c.body
                case Some(section) =>
                  && r.body.Some? && r.body.value.JsonRequest? && r.body.value.value.ObjectValue?
                  && EntriesFaithful(section.entries, r.body.value.value.fields))
    decreases |sections|
  {
    if sections != [] {
      var first, rest := sections[0], sections[1..];
      SectionOfNew(rest, KindOf(first));
      match first {
        case RequestHeaders(entries) => EntriesConverted(entries, scope, 0, limit);
        case RequestQuery(entries) => EntriesConverted(entries, scope, 0, limit);
        case RequestBodySection(entries) => EntriesConverted(entries, scope, 1, limit);
      }
      SectionsConverted(WithSection(c, first), verb, rest, scope, limit);
    }
  }

  lemma RequestConverted(request: RequestAst, scope: set<string>, limit: nat)
    requires RequestOk(request, scope, limit)
    ensures RequestFaithful(request, RequestFrom(request))
  {
    SectionsConverted(HttpRequestSpec(request.verb, request.path, [], [], None, None), request.verb, request.sections,
                      scope, limit);
  }

  // ---- expectations ----

  lemma {:induction false} FieldConverted(field: FieldAssertionAst, scope: set<string>, depth: nat, limit: nat)
    requires FieldOk(field, scope, depth, limit)
    ensures FieldFrom(field).Some? && FieldFaithful(field, FieldFrom(field).value)
    decreases field, 1, 0
  {
    if field.expectedValue.Some? {
      ValueConverted(field.expectedValue.value, scope, depth, limit);
    }
    if field.nested.Some? {
      AssertionConverted(field.nested.value, scope, depth, limit);
    }
  }

  lemma {:induction false} AssertionConverted(a: ObjectAssertionAst, scope: set<string>, depth: nat, limit: nat)
    requires AssertionOk(a, scope, depth, limit)
    ensures ObjectFrom(a).Some? && AssertionFaithful(a, ObjectFrom(a).value)
    decreases a, 1, 0
  {
    FieldsConverted(a, 0, [], scope, depth, limit);
  }

  lemma {:induction false} FieldsConverted(
    a: ObjectAssertionAst, i: nat, converted: Entries<FieldAssertion>, scope: set<string>, depth: nat, limit: nat)
    requires i <= |a.fields| && |converted| == i && AssertionOk(a, scope, depth, limit)
    requires forall k | 0 <= k < i :: converted[k].0 == a.fields[k].name && FieldFaithful(a.fields[k], converted[k].1)
    ensures var r := FieldsFrom(a, i, converted);
            && r.Some? && |r.value| == |a.fields|
            && forall k | 0 <= k < |a.fields| ::
                 r.value[k].0 == a.fields[k].name && FieldFaithful(a.fields[k], r.value[k].1)
    decreases a, 0, |a.fields| - i
  {
    if i < |a.fields| {
      FieldConverted(a.fields[i], scope, depth + 1, limit);
      var field := FieldFrom(a.fields[i]).value;
      assert field.fieldName !in Keys(converted) by {
        assert forall k | 0 <= k < i :: converted[k].0 == a.fields[k].name && a.fields[k].name != a.fields[i].name;
      }
      FieldsConverted(a, i + 1, Insert(converted, field.fieldName, field), scope, depth, limit);
    }
  }

  lemma BodyConverted(body: BodyAssertionAst, scope: set<string>, limit: nat)
    requires BodyOk(body, scope, limit)
    ensures BodyFrom(body).Some? && BodyFaithful(body, BodyFrom(body).value)
  {
    if body.ObjectBody? {
      AssertionConverted(body.shape, scope, 0, limit);
    }
  }

  ghost predicate ExpectationUntouched(c: ResponseExpectation, sections: seq<ExpectationSection>) {
    && (ExpectationSectionOf(sections, HeaderKind).Some? ==> c.headers == [])
    && (ExpectationSectionOf(sections, BodyKind).Some? ==> c.body == None)
  }

  lemma {:induction false} ExpectationSectionOfNew(sections: seq<ExpectationSection>, kind: SectionKind)
    ensures ExpectationSectionOf(sections, kind).None? <==>
            forall i | 0 <= i < |sections| :: ExpectationKind(sections[i]) != kind
  {
    if sections != [] {
      ExpectationSectionOfNew(sections[1..], kind);
      assert forall i | 1 <= i < |sections| :: sections[i] == sections[1..][i - 1];
      assert forall i | 0 <= i < |sections| - 1 :: sections[1..][i] == sections[i + 1];
    }
  }

  lemma {:induction false} ExpectationSectionsConverted(
    c: ResponseExpectation, sections: seq<ExpectationSection>, scope: set<string>, limit: nat)
    requires forall i, j | 0 <= i < j < |sections| :: ExpectationKind(sections[i]) != ExpectationKind(sections[j])
    requires forall i | 0 <= i < |sections| :: ExpectationSectionOk(sections[i], scope, limit)
    requires ExpectationUntouched(c, sections)
    ensures var r := WithExpectationSections(c, sections);
            && r.Some?
            && (match ExpectationSectionOf(sections, StatusKind)
                case None => r.value.status == c.status
                case Some(section) => r.value.status == Some(section.status))
            && (match ExpectationSectionOf(sections, HeaderKind)
                case None => r.value.headers == c.headers
                case Some(section) => r.value.headers == HeadersFrom(section.entries))
            && (match ExpectationSectionOf(sections, BodyKind)
                case None => r.value.body == c.body
                case Some(section) => r.value.body.Some? && BodyFaithful(section.body, r.value.body.value))
    decreases |sections|
  {
    if sections != [] {
      var first, rest := sections[0], sections[1..];
      ExpectationSectionOfNew(rest, ExpectationKind(first));
      match first {
        case StatusSection(_) =>
        case HeadersSection(entries) =>
          assert Distinct(HeadersFrom(entries));
          CollectedInOrder(HeadersFrom(entries));
        case BodySection(body) => BodyConverted(body, scope, limit);
      }
      ExpectationSectionsConverted(WithExpectationSection(c, first).value, rest, scope, limit);
    }
  }

  lemma ExpectationConverted(expectation: ExpectationAst, scope: set<string>, limit: nat)
    requires ExpectationOk(expectation, scope, limit)
    ensures ExpectationFrom(expectation).Some? && ExpectationFaithful(expectation, ExpectationFrom(expectation).value)
  {
    ExpectationSectionsConverted(ResponseExpectation(None, [], None), expectation.sections, scope, limit);
  }

  // ---- tests and suites ----

  lemma TestConverted(test: TestAst, scope: set<string>, limit: nat)
    requires TestOk(test, scope, limit)
    ensures TestFrom(test).Some? && TestFaithful(test, TestFrom(test).value)
  {
    RequestConverted(test.requests[0], scope, limit);
    ExpectationConverted(test.expectations[0], scope, limit);
  }

  lemma TestsConverted(tests: seq<TestAst>, scope: set<string>, limit: nat)
    requires TestsOk(tests, scope, limit)
    ensures TestsFrom(tests).Some? && TestsFaithful(tests, TestsFrom(tests).value)
  {
    forall i | 0 <= i < |tests| ensures TestFrom(tests[i]).Some? && TestFaithful(tests[i], TestFrom(tests[i]).value) {
      TestConverted(tests[i], ScopeBefore(tests, i, scope), limit);
    }
  }

  /** None of the converter's expectations can fail on a validated suite, and every part survives in source order. */
  lemma ConversionIsTotalAndLossless(ast: SuiteAst, predefined: set<string>, limit: nat)
    requires SuiteErrors(ast, predefined, limit) == []
    ensures SuiteFrom(ast).Some? && SuiteFaithful(ast, SuiteFrom(ast).value)
  {
    ValidationIsExact(ast, predefined, limit);
    forall i | 0 <= i < |ast.blocks|
      ensures BlockFrom(ast.blocks[i]).Some? && BlockFaithful(ast.blocks[i], BlockFrom(ast.blocks[i]).value)
    {
      var afterCore := AfterCore(ast, predefined);
      match ast.blocks[i]
      case CoreAst(tests) => TestsConverted(tests, predefined, limit);
      case PipelineAst(_, tests) => TestsConverted(tests, afterCore, limit);
      case StandaloneAst(test) => TestConverted(test, afterCore, limit);
    }
  }
}
