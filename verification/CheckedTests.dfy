/** What a converted test brings along from validation: closed text, fresh captures and bounded literals. */
module CheckedTests {
  import opened Wrappers
  import opened Text
  import opened IndexMap
  import opened JsonValues
  import opened Expectation
  import opened Domain
  import opened Ast
  import opened Template
  import opened WellFormed
  import opened Converter
  import opened ConversionExact
  import opened ResolverFacts
  import opened ResolvedShape
  import opened LiteralDepth
  import opened Variables
  import opened Interpolation
  import opened Resolver
  import ValidationExact

  /** A test that needs no name outside `scope` and captures only new ones, with literals within the depth limit. */
  ghost predicate Ready(test: TestCase, scope: set<string>, limit: nat) {
    && RequestClosed(test.request, scope)
    && ExpectationClosed(test.expectation, scope)
    && SourceExpectationWellTyped(test.expectation)
    && Distinct(SourceCaptures(test.expectation))
    && CapturedBy(test) !! scope
    && RequestHeight(test.request) <= limit
    && ExpectationHeight(test.expectation) <= limit
  }

  /** The names a test adds to its scope. */
  function CapturedBy(test: TestCase): set<string> {
    Keys(SourceCaptures(test.expectation))
  }

  /** The scope in which test `i` of a sequence runs. */
  function RunScope(tests: seq<TestCase>, i: nat, scope: set<string>): set<string>
    requires i <= |tests|
  {
    if i == 0 then scope else RunScope(tests, i - 1, scope) + CapturedBy(tests[i - 1])
  }

  ghost predicate AllReady(tests: seq<TestCase>, scope: set<string>, limit: nat) {
    forall i | 0 <= i < |tests| :: Ready(tests[i], RunScope(tests, i, scope), limit)
  }

  // ---- values ----

  lemma {:induction false} ValueKeeps(value: ValueAst, c: Value, scope: set<string>, depth: nat, limit: nat)
    requires ValueOk(value, scope, depth, limit) && ValueFaithful(value, c) && depth <= limit
    ensures ValueClosed(c, scope) && depth + ValueHeight(c) <= limit
    decreases value
  {
    match value
    case ArrayAst(items) =>
      forall i | 0 <= i < |items|
        ensures ValueClosed(c.items[i], scope) && depth + 1 + ValueHeight(c.items[i]) <= limit
      {
        ValueKeeps(items[i], c.items[i], scope, depth + 1, limit);
      }
      ValuesHeightBound(c.items, limit - depth - 1);
    case ObjectAst(entries) =>
      forall i | 0 <= i < |entries|
        ensures ValueClosed(c.fields[i].1, scope) && depth + 1 + ValueHeight(c.fields[i].1) <= limit
      {
        assert entries[i] in entries;
        ValueKeeps(entries[i].1, c.fields[i].1, scope, depth + 1, limit);
      }
      EntriesHeightBound(c.fields, limit - depth - 1);
    case _ =>
  }

  lemma {:induction false} ValuesHeightBound(items: seq<Value>, bound: nat)
    requires forall i | 0 <= i < |items| :: ValueHeight(items[i]) <= bound
    ensures ValuesHeight(items) <= bound
  {
    if items != [] {
      ValuesHeightBound(items[1..], bound);
    }
  }

  lemma {:induction false} EntriesHeightBound(entries: Entries<Value>, bound: nat)
    requires forall i | 0 <= i < |entries| :: ValueHeight(entries[i].1) <= bound
    ensures EntriesHeight(entries) <= bound
  {
    if entries != [] {
      EntriesHeightBound(entries[1..], bound);
    }
  }

  lemma EntriesKeep(entries: Entries<ValueAst>, c: Entries<Value>, scope: set<string>, depth: nat, limit: nat)
    requires EntriesOk(entries, scope, depth, limit) && EntriesFaithful(entries, c) && depth <= limit
    ensures EntriesClosed(c, scope) && depth + EntriesHeight(c) <= limit
  {
    forall i | 0 <= i < |entries|
      ensures ValueClosed(c[i].1, scope) && depth + ValueHeight(c[i].1) <= limit
    {
      ValueKeeps(entries[i].1, c[i].1, scope, depth, limit);
    }
    EntriesHeightBound(c, limit - depth);
  }

  lemma {:induction false} SectionOfOk(
    verb: HttpMethod, sections: seq<RequestSection>, kind: SectionKind, scope: set<string>, limit: nat)
    requires forall i | 0 <= i < |sections| :: SectionOk(verb, sections[i], scope, limit)
    ensures SectionOf(sections, kind).Some? ==>
              && KindOf(SectionOf(sections, kind).value) == kind
              && SectionOk(verb, SectionOf(sections, kind).value, scope, limit)
  {
    if sections != [] {
      SectionOfOk(verb, sections[1..], kind, scope, limit);
    }
  }

  lemma RequestKeeps(request: RequestAst, c: HttpRequestSpec, scope: set<string>, limit: nat)
    requires RequestOk(request, scope, limit) && RequestFaithful(request, c)
    ensures RequestClosed(c, scope) && RequestHeight(c) <= limit
  {
    var headers := SectionOf(request.sections, HeaderKind);
    SectionOfOk(request.verb, request.sections, HeaderKind, scope, limit);
    if headers.Some? {
      EntriesKeep(headers.value.entries, c.headers, scope, 0, limit);
    }
    var query := SectionOf(request.sections, QueryKind);
    SectionOfOk(request.verb, request.sections, QueryKind, scope, limit);
    if query.Some? {
      EntriesKeep(query.value.entries, c.query, scope, 0, limit);
    }
    var body := SectionOf(request.sections, BodyKind);
    SectionOfOk(request.verb, request.sections, BodyKind, scope, limit);
    if body.Some? {
      ValueKeeps(ObjectAst(body.value.entries), c.body.value.value, scope, 0, limit);
    }
  }

  // ---- assertions ----

  function NamesOf(captures: seq<(string, seq<string>)>): (r: seq<string>)
    ensures |r| == |captures| && forall i | 0 <= i < |r| :: r[i] == captures[i].0
  {
    seq(|captures|, i requires 0 <= i < |captures| => captures[i].0)
  }

  lemma NamesOfAppend(a: seq<(string, seq<string>)>, b: seq<(string, seq<string>)>)
    ensures NamesOf(a + b) == NamesOf(a) + NamesOf(b)
  {
  }

  lemma {:induction false} FieldKeeps(
    field: FieldAssertionAst, c: FieldAssertion, path: seq<string>, scope: set<string>, depth: nat, limit: nat)
    requires FieldOk(field, scope, depth, limit) && FieldFaithful(field, c) && depth <= limit
    ensures FieldClosed(c, scope) && SourceFieldWellTyped(c) && depth + FieldAssertionHeight(c) <= limit
    ensures NamesOf(SourceCapturesIn(c, path)) == FieldCaptureNames(field)
    decreases field, 1, 0
  {
    if field.expectedValue.Some? {
      ValueKeeps(field.expectedValue.value, c.expectedValue.value, scope, depth, limit);
    }
    var here := path + [c.fieldName];
    if field.nested.Some? {
      AssertionKeeps(field.nested.value, c.nested.value, here, scope, depth, limit);
    }
    NamesOfAppend(if c.capture.Some? then [(c.capture.value, here)] else [],
                  if c.nested.Some? then SourceCapturesFrom(c.nested.value, 0, here) else []);
  }

  lemma {:induction false} AssertionKeeps(
    a: ObjectAssertionAst, c: ObjectAssertion, path: seq<string>, scope: set<string>, depth: nat, limit: nat)
    requires AssertionOk(a, scope, depth, limit) && AssertionFaithful(a, c)
    ensures ObjectClosed(c, scope) && SourceWellTyped(c) && depth + AssertionHeight(c) <= limit
    ensures NamesOf(SourceCapturesFrom(c, 0, path)) == CaptureNamesFrom(a, 0)
    decreases a, 1, 0
  {
    forall i | 0 <= i < |a.fields|
      ensures FieldClosed(c.fields[i].1, scope) && SourceFieldWellTyped(c.fields[i].1)
      ensures c.fields[i].0 == c.fields[i].1.fieldName
    {
      FieldKeeps(a.fields[i], c.fields[i].1, path, scope, depth + 1, limit);
    }
    FieldsKeep(a, c, 0, path, scope, depth, limit);
  }

  lemma {:induction false} FieldsKeep(
    a: ObjectAssertionAst, c: ObjectAssertion, i: nat, path: seq<string>, scope: set<string>, depth: nat, limit: nat)
    requires i <= |a.fields| && AssertionOk(a, scope, depth, limit) && AssertionFaithful(a, c)
    ensures depth + 1 + FieldsHeightFrom(c, i) <= limit
    ensures NamesOf(SourceCapturesFrom(c, i, path)) == CaptureNamesFrom(a, i)
    decreases a, 0, |a.fields| - i
  {
    if i < |a.fields| {
      FieldKeeps(a.fields[i], c.fields[i].1, path, scope, depth + 1, limit);
      FieldsKeep(a, c, i + 1, path, scope, depth, limit);
      NamesOfAppend(SourceCapturesIn(c.fields[i].1, path), SourceCapturesFrom(c, i + 1, path));
    }
  }

  /** A well-formed expectation captures in its only body section. */
  lemma {:induction false} CapturesOfBody(sections: seq<ExpectationSection>)
    requires forall i, j | 0 <= i < j < |sections| :: ExpectationKind(sections[i]) != ExpectationKind(sections[j])
    ensures var body := ExpectationSectionOf(sections, BodyKind);
            SectionsCaptureNames(sections) == if body.Some? then BodyCaptureNames(body.value.body) else []
  {
    if sections != [] {
      CapturesOfBody(sections[1..]);
      ExpectationSectionOfNew(sections[1..], ExpectationKind(sections[0]));
    }
  }

  lemma ExpectationKeeps(expectation: ExpectationAst, c: ResponseExpectation, scope: set<string>, limit: nat)
    requires ExpectationOk(expectation, scope, limit) && ExpectationFaithful(expectation, c)
    ensures ExpectationClosed(c, scope) && SourceExpectationWellTyped(c) && ExpectationHeight(c) <= limit
    ensures NamesOf(SourceCaptures(c)) == SectionsCaptureNames(expectation.sections)
  {
    var headers := ExpectationSectionOf(expectation.sections, HeaderKind);
    if headers.Some? {
      assert ResponseHeadersOk(headers.value.entries, scope);
    }
    var body := ExpectationSectionOf(expectation.sections, BodyKind);
    CapturesOfBody(expectation.sections);
    if body.Some? {
      assert BodyOk(body.value.body, scope, limit);
      if body.value.body.ObjectBody? {
        AssertionKeeps(body.value.body.shape, c.body.value.shape, [], scope, 0, limit);
      }
    }
  }

  // ---- tests ----

  lemma NamesAreKeys(captures: seq<(string, seq<string>)>)
    ensures NameSet(NamesOf(captures)) == Keys(captures)
    ensures FreshNames(NamesOf(captures), {}) <==> Distinct(captures)
  {
    var names := NamesOf(captures);
    assert forall i | 0 <= i < |captures| :: names[i] == captures[i].0;
  }

  /** The converted test is ready for the scope it was validated in, and extends it by the same names. */
  lemma TestKeeps(test: TestAst, c: TestCase, scope: set<string>, limit: nat)
    requires TestOk(test, scope, limit) && TestFaithful(test, c)
    ensures Ready(c, scope, limit)
    ensures ScopeAfter(test, scope) == scope + CapturedBy(c)
  {
    RequestKeeps(test.requests[0], c.request, scope, limit);
    ExpectationKeeps(test.expectations[0], c.expectation, scope, limit);
    var captures := SourceCaptures(c.expectation);
    var names := NamesOf(captures);
    NamesAreKeys(captures);
    assert FreshNames(names, scope);
    forall name | name in CapturedBy(c) ensures name !in scope {
      var i :| 0 <= i < |captures| && captures[i].0 == name;
      assert names[i] !in scope;
    }
  }

  /** Validator and run agree on the scope of every test of a sequence. */
  lemma {:induction false} TestsKeep(tests: seq<TestAst>, c: seq<TestCase>, i: nat, scope: set<string>, limit: nat)
    requires TestsOk(tests, scope, limit) && TestsFaithful(tests, c) && i <= |tests|
    ensures RunScope(c, i, scope) == ScopeBefore(tests, i, scope)
    ensures forall k | 0 <= k < i :: Ready(c[k], RunScope(c, k, scope), limit)
  {
    hide TestOk;
    hide TestFaithful;
    hide Ready;
    hide CapturedBy;
    hide ScopeAfter;
    if i > 0 {
      TestsKeep(tests, c, i - 1, scope, limit);
      TestKeeps(tests[i - 1], c[i - 1], ScopeBefore(tests, i - 1, scope), limit);
    }
  }

  /**
   * With a runtime limit no smaller than the one used for checking, the literals of a checked test never exceed it:
   * resolution is too deep iff the first failure is a structured variable too deep for the placeholder it replaces.
   */
  lemma CheckedLiteralsFit(config: RuntimeConfig, test: TestCase, store: Contents, limit: nat)
    requires Ready(test, Keys(store), limit) && limit <= config.maxResolutionDepth
    ensures TooDeep(ResolveRequest(config, test.request, store))
            <==> OverflowsFirst(config, RequestVisits(test.request), store)
    ensures TooDeep(ResolveExpectation(config, test.expectation, store))
            <==> OverflowsFirst(config, ExpectationVisits(test.expectation), store)
  {
    hide ResolveRequest;
    hide ResolveExpectation;
    hide OverflowsFirst;
    RequestNotTooDeep(config, test.request, store);
    ExpectationNotTooDeep(config, test.expectation, store);
  }
}
