/**
 * When validation reports nesting: exactly if the containers of the tree are nested deeper than the limit. A tree parsed
 * under a limit never is, because what the parser counts as level k is visited by the validator at depth k - 1.
 */
module DepthAlignment {
  import opened Wrappers
  import opened Text
  import opened IndexMap
  import opened JsonValues
  import opened Expectation
  import opened Domain
  import opened Ast
  import opened Template
  import opened ValidationSpec
  import opened Canonical

  // ---- how deep containers are nested in a tree ----

  function ValueLevels(value: ValueAst): nat {
    match value
    case ArrayAst(items) => 1 + ItemsLevels(items)
    case ObjectAst(entries) => 1 + EntriesLevels(entries)
    case _ => 0
  }

  function ItemsLevels(items: seq<ValueAst>): nat {
    if items == [] then 0 else Max(ValueLevels(items[0]), ItemsLevels(items[1..]))
  }

  function EntriesLevels(entries: Entries<ValueAst>): nat {
    if entries == [] then 0 else Max(EntryLevels(entries[0]), EntriesLevels(entries[1..]))
  }

  function EntryLevels(entry: (string, ValueAst)): nat {
    ValueLevels(entry.1)
  }

  /** The body of a request is itself an object. */
  function SectionLevels(section: RequestSection): nat {
    match section
    case RequestHeaders(entries) => EntriesLevels(entries)
    case RequestQuery(entries) => EntriesLevels(entries)
    case RequestBodySection(entries) => 1 + EntriesLevels(entries)
  }

  function SectionsLevels(sections: seq<RequestSection>): nat {
    if sections == [] then 0 else Max(SectionLevels(sections[0]), SectionsLevels(sections[1..]))
  }

  function RequestsLevels(requests: seq<RequestAst>): nat {
    if requests == [] then 0 else Max(SectionsLevels(requests[0].sections), RequestsLevels(requests[1..]))
  }

  /** An object assertion is a level of its own; the values and assertions of its fields lie below it. */
  function AssertionLevels(a: ObjectAssertionAst): nat
    decreases a, 1, 0
  {
    1 + FieldsLevelsFrom(a, 0)
  }

  function FieldsLevelsFrom(a: ObjectAssertionAst, i: nat): nat
    requires i <= |a.fields|
    decreases a, 0, |a.fields| - i
  {
    if i == |a.fields| then 0 else Max(FieldLevels(a.fields[i]), FieldsLevelsFrom(a, i + 1))
  }

  function ExpectedLevels(value: Option<ValueAst>): nat {
    if value.None? then 0 else ValueLevels(value.value)
  }

  function FieldLevels(field: FieldAssertionAst): nat
    decreases field, 2, 0
  {
    Max(ExpectedLevels(field.expectedValue), if field.nested.None? then 0 else AssertionLevels(field.nested.value))
  }

  function ExpectationSectionLevels(section: ExpectationSection): nat {
    if section.BodySection? && section.body.ObjectBody? then AssertionLevels(section.body.shape) else 0
  }

  function ExpectationSectionsLevels(sections: seq<ExpectationSection>): nat {
    if sections == [] then 0 else Max(ExpectationSectionLevels(sections[0]), ExpectationSectionsLevels(sections[1..]))
  }

  function ExpectationsLevels(expectations: seq<ExpectationAst>): nat {
    if expectations == [] then 0
    else Max(ExpectationSectionsLevels(expectations[0].sections), ExpectationsLevels(expectations[1..]))
  }

  function TestLevels(test: TestAst): nat {
    Max(RequestsLevels(test.requests), ExpectationsLevels(test.expectations))
  }

  function TestsLevels(tests: seq<TestAst>): nat {
    if tests == [] then 0 else Max(TestLevels(tests[0]), TestsLevels(tests[1..]))
  }

  function BlockLevels(block: BlockAst): nat {
    match block
    case CoreAst(tests) => TestsLevels(tests)
    case PipelineAst(_, tests) => TestsLevels(tests)
    case StandaloneAst(test) => TestLevels(test)
  }

  function BlocksLevels(blocks: seq<BlockAst>): nat {
    if blocks == [] then 0 else Max(BlockLevels(blocks[0]), BlocksLevels(blocks[1..]))
  }

  function SuiteLevels(ast: SuiteAst): nat {
    BlocksLevels(ast.blocks)
  }

  // ---- single steps ----

  predicate NoDepthError(errors: Errors) {
    forall k | 0 <= k < |errors| :: !errors[k].NestingLimitExceeded?
  }

  /** What is nested this deep, and starts at `depth`, stays within the limit. */
  predicate Room(levels: nat, depth: nat, limit: nat) {
    levels == 0 || depth + levels <= limit
  }

  /** A step adds a nesting error iff something does not fit. */
  predicate Step(before: Errors, after: Errors, fits: bool) {
    NoDepthError(after) <==> NoDepthError(before) && fits
  }

  lemma Appended(errors: Errors, kind: ErrorKind)
    ensures Step(errors, errors + [kind], !kind.NestingLimitExceeded?)
  {
    var after := errors + [kind];
    assert after[|errors|] == kind;
    assert forall k | 0 <= k < |errors| :: after[k] == errors[k];
  }

  lemma AppendedIf(errors: Errors, condition: bool, kind: ErrorKind)
    requires !kind.NestingLimitExceeded?
    ensures Step(errors, AddIf(errors, condition, kind), true)
  {
    hide NoDepthError;
    Appended(errors, kind);
  }

  lemma {:induction false} VariablesStep(errors: Errors, names: seq<string>, scope: set<string>)
    ensures Step(errors, VariableErrors(errors, names, scope), true)
    decreases |names|
  {
    hide NoDepthError;
    hide ValidVariableName;
    if names != [] {
      var invalid := ErrorKind.InvalidVariableName(names[0]);
      Appended(errors, invalid);
      AppendedIf(errors, names[0] !in scope, UndefinedVariable(names[0]));
      VariablesStep(
        if !ValidVariableName(names[0]) then errors + [invalid]
        else AddIf(errors, names[0] !in scope, UndefinedVariable(names[0])), names[1..], scope);
    }
  }

  lemma TextStep(errors: Errors, raw: string, scope: set<string>)
    ensures Step(errors, TextErrors(errors, raw, scope), true)
  {
    hide NoDepthError;
    hide VariableErrors;
    hide Names;
    Appended(errors, EmptyInterpolation);
    Appended(errors, UnterminatedInterpolation);
    if Names(raw).Ok? {
      VariablesStep(errors, Names(raw).value, scope);
    }
  }

  lemma NameStep(errors: Errors, name: string, kind: DuplicateKind, names: set<string>)
    ensures Step(errors, NameErrors(errors, name, kind, names), true)
    ensures Step(errors, HeaderNameErrors(errors, name, kind, names), true)
  {
    hide NoDepthError;
    hide AddIf;
    hide Lower;
    AppendedIf(errors, name == "", EmptyNameOf(kind));
    var first := AddIf(errors, name == "", EmptyNameOf(kind));
    AppendedIf(first, name in names, DuplicateNamed(kind, name));
    AppendedIf(first, Lower(name) in names, DuplicateNamed(kind, name));
  }

  // ---- values ----

  lemma {:induction false} ValueStep(errors: Errors, value: ValueAst, scope: set<string>, depth: nat, limit: nat)
    ensures Step(errors, ValueErrors(errors, value, scope, depth, limit), Room(ValueLevels(value), depth, limit))
    decreases value
  {
    hide NoDepthError;
    hide TextErrors;
    Appended(errors, NestingLimitExceeded(limit));
    match value
    case StringAst(raw) => TextStep(errors, raw, scope);
    case ArrayAst(items) => ItemsStep(errors, items, scope, depth + 1, limit);
    case ObjectAst(entries) => EntriesStep(errors, entries, scope, depth + 1, DupObjectKey, {}, limit);
    case _ =>
  }

  lemma {:induction false} ItemsStep(errors: Errors, items: seq<ValueAst>, scope: set<string>, depth: nat, limit: nat)
    ensures Step(errors, ItemsErrors(errors, items, scope, depth, limit), Room(ItemsLevels(items), depth, limit))
    decreases items
  {
    hide NoDepthError;
    hide ValueErrors;
    hide ValueLevels;
    if items != [] {
      ValueStep(errors, items[0], scope, depth, limit);
      ItemsStep(ValueErrors(errors, items[0], scope, depth, limit), items[1..], scope, depth, limit);
    }
  }

  lemma {:induction false} EntriesStep(
    errors: Errors, entries: Entries<ValueAst>, scope: set<string>, depth: nat, kind: DuplicateKind,
    names: set<string>, limit: nat)
    ensures Step(errors, EntriesErrors(errors, entries, scope, depth, kind, names, limit),
                 Room(EntriesLevels(entries), depth, limit))
    decreases entries
  {
    hide NoDepthError;
    hide NameErrors;
    hide EntryErrors;
    hide EntryLevels;
    if entries != [] {
      NameStep(errors, entries[0].0, kind, names);
      var named := NameErrors(errors, entries[0].0, kind, names);
      EntryStep(named, entries[0], scope, depth, limit);
      EntriesStep(EntryErrors(named, entries[0], scope, depth, limit), entries[1..], scope, depth, kind,
                  names + {entries[0].0}, limit);
    }
  }

  lemma {:induction false} EntryStep(
    errors: Errors, entry: (string, ValueAst), scope: set<string>, depth: nat, limit: nat)
    ensures Step(errors, EntryErrors(errors, entry, scope, depth, limit), Room(EntryLevels(entry), depth, limit))
    decreases entry
  {
    hide NoDepthError;
    hide ValueErrors;
    hide ValueLevels;
    ValueStep(errors, entry.1, scope, depth, limit);
  }

  // ---- requests ----

  lemma {:induction false} RequestHeadersStep(
    errors: Errors, entries: Entries<ValueAst>, scope: set<string>, names: set<string>, limit: nat)
    ensures Step(errors, RequestHeadersErrors(errors, entries, scope, names, limit), EntriesLevels(entries) <= limit)
    decreases |entries|
  {
    hide NoDepthError;
    hide HeaderNameErrors;
    hide ValueErrors;
    hide ValueLevels;
    if entries != [] {
      NameStep(errors, entries[0].0, DupRequestHeader, names);
      var named := HeaderNameErrors(errors, entries[0].0, DupRequestHeader, names);
      ValueStep(named, entries[0].1, scope, 0, limit);
      RequestHeadersStep(ValueErrors(named, entries[0].1, scope, 0, limit), entries[1..], scope,
                         names + {Lower(entries[0].0)}, limit);
    }
  }

  lemma SectionStep(scan: RequestScan, verb: HttpMethod, section: RequestSection, scope: set<string>, limit: nat)
    ensures Step(scan.errors, SectionScan(scan, verb, section, scope, limit).errors, SectionLevels(section) <= limit)
  {
    hide NoDepthError;
    hide RequestHeadersErrors;
    hide EntriesErrors;
    hide EntriesLevels;
    hide AddIf;
    match section
    case RequestHeaders(entries) =>
      AppendedIf(scan.errors, scan.sawHeaders, Duplicate(DupRequestHeaders));
      RequestHeadersStep(
        AddIf(scan.errors, scan.sawHeaders, Duplicate(DupRequestHeaders)), entries, scope, scan.headerNames, limit);
    case RequestQuery(entries) =>
      AppendedIf(scan.errors, scan.sawQuery, Duplicate(DupRequestQuery));
      EntriesStep(AddIf(scan.errors, scan.sawQuery, Duplicate(DupRequestQuery)), entries, scope, 0, DupQueryParameter,
                  scan.queryNames, limit);
    case RequestBodySection(entries) =>
      AppendedIf(scan.errors, scan.sawBody, Duplicate(DupRequestBody));
      var first := AddIf(scan.errors, scan.sawBody, Duplicate(DupRequestBody));
      AppendedIf(first, !MethodAllowsBody(verb), RequestBodyNotAllowed(verb));
      ValueStep(
        AddIf(first, !MethodAllowsBody(verb), RequestBodyNotAllowed(verb)), ObjectAst(entries), scope, 0, limit);
  }

  lemma {:induction false} SectionsStep(
    scan: RequestScan, verb: HttpMethod, sections: seq<RequestSection>, scope: set<string>, limit: nat)
    ensures Step(
              scan.errors, SectionsScan(scan, verb, sections, scope, limit).errors, SectionsLevels(sections) <= limit)
    decreases |sections|
  {
    hide NoDepthError;
    hide SectionScan;
    hide SectionLevels;
    if sections != [] {
      SectionStep(scan, verb, sections[0], scope, limit);
      SectionsStep(SectionScan(scan, verb, sections[0], scope, limit), verb, sections[1..], scope, limit);
    }
  }

  lemma RequestStep(errors: Errors, request: RequestAst, scope: set<string>, limit: nat)
    ensures Step(errors, RequestErrors(errors, request, scope, limit), SectionsLevels(request.sections) <= limit)
  {
    hide NoDepthError;
    hide AddIf;
    hide TextErrors;
    hide SectionsScan;
    hide SectionsLevels;
    AppendedIf(errors, request.path == "", EmptyRequestPath);
    var pathed := AddIf(errors, request.path == "", EmptyRequestPath);
    TextStep(pathed, request.path, scope);
    var started := TextErrors(pathed, request.path, scope);
    SectionsStep(RequestScan(started, false, false, false, {}, {}), request.verb, request.sections, scope, limit);
  }

  lemma {:induction false} RequestsStep(errors: Errors, requests: seq<RequestAst>, scope: set<string>, limit: nat)
    ensures Step(errors, RequestsErrors(errors, requests, scope, limit), RequestsLevels(requests) <= limit)
    decreases |requests|
  {
    hide NoDepthError;
    hide RequestErrors;
    hide SectionsLevels;
    if requests != [] {
      RequestStep(errors, requests[0], scope, limit);
      RequestsStep(RequestErrors(errors, requests[0], scope, limit), requests[1..], scope, limit);
    }
  }

  // ---- expectations ----

  lemma HeadStep(errors: Errors, field: FieldAssertionAst, scope: set<string>, depth: nat, limit: nat)
    ensures Step(errors, FieldHeadErrors(errors, field, scope, depth, limit),
                 Room(ExpectedLevels(field.expectedValue), depth, limit))
  {
    hide NoDepthError;
    hide AddIf;
    hide ValueErrors;
    hide ValueLevels;
    hide TypeAccepts;
    hide InferType;
    var nothing := field.expectedType.None? && field.expectedValue.None? && field.nested.None?;
    AppendedIf(errors, nothing, MissingFieldAssertion(field.name));
    var missing := AddIf(errors, nothing, MissingFieldAssertion(field.name));
    if field.expectedValue.Some? {
      var value := field.expectedValue.value;
      if field.expectedType.Some? && !TypeAccepts(field.expectedType.value, value) {
        var mismatch := TypeValueMismatch(field.name, field.expectedType.value, InferType(value));
        Appended(missing, mismatch);
        ValueStep(missing + [mismatch], value, scope, depth, limit);
      } else {
        ValueStep(missing, value, scope, depth, limit);
      }
    }
  }

  lemma NestedHeadStep(errors: Errors, field: FieldAssertionAst)
    requires field.nested.Some?
    ensures Step(errors, NestedHeadErrors(errors, field), true)
  {
    hide NoDepthError;
    hide AddIf;
    AppendedIf(errors, field.expectedType != Some(TObject), NestedAssertionRequiresObject(field.name));
    AppendedIf(AddIf(errors, field.expectedType != Some(TObject), NestedAssertionRequiresObject(field.name)),
               field.nested.value.mode != MatchPartial, NestedAssertionMustBePartial(field.name));
  }

  lemma CaptureStep(p: Progress, field: FieldAssertionAst, scope: set<string>)
    ensures Step(p.errors, CaptureProgress(p, field, scope).errors, true)
  {
    hide NoDepthError;
    hide AddIf;
    hide ValidVariableName;
    if field.capture.Some? {
      var name := field.capture.value;
      AppendedIf(p.errors, field.expectedType.None?, CaptureRequiresType(name));
      var errors := AddIf(p.errors, field.expectedType.None?, CaptureRequiresType(name));
      Appended(errors, ErrorKind.InvalidVariableName(name));
      Appended(errors, DuplicateVariable(name));
    }
  }

  lemma {:induction false} FieldStep(p: Progress, field: FieldAssertionAst, scope: set<string>, depth: nat, limit: nat)
    ensures Step(p.errors, FieldProgress(p, field, scope, depth, limit).errors, Room(FieldLevels(field), depth, limit))
    decreases field, 1, 0
  {
    hide NoDepthError;
    hide FieldHeadErrors;
    hide NestedHeadErrors;
    hide AssertionProgress;
    hide AssertionLevels;
    hide CaptureProgress;
    hide ExpectedLevels;
    HeadStep(p.errors, field, scope, depth, limit);
    var head := p.(errors := FieldHeadErrors(p.errors, field, scope, depth, limit));
    if field.nested.Some? {
      NestedHeadStep(head.errors, field);
      var started := head.(errors := NestedHeadErrors(head.errors, field));
      AssertionStep(started, field.nested.value, scope, depth, limit);
      CaptureStep(AssertionProgress(started, field.nested.value, scope, depth, limit), field, scope);
    } else {
      CaptureStep(head, field, scope);
    }
  }

  lemma {:induction false} AssertionStep(
    p: Progress, a: ObjectAssertionAst, scope: set<string>, depth: nat, limit: nat)
    ensures Step(p.errors, AssertionProgress(p, a, scope, depth, limit).errors, Room(AssertionLevels(a), depth, limit))
    decreases a, 1, 0
  {
    hide NoDepthError;
    hide FieldsProgress;
    hide FieldsLevelsFrom;
    Appended(p.errors, NestingLimitExceeded(limit));
    FieldsStep(p, a, 0, {}, scope, depth + 1, limit);
  }

  lemma {:induction false} FieldsStep(
    p: Progress, a: ObjectAssertionAst, i: nat, names: set<string>, scope: set<string>, depth: nat, limit: nat)
    requires i <= |a.fields|
    ensures Step(p.errors, FieldsProgress(p, a, i, names, scope, depth, limit).errors,
                 Room(FieldsLevelsFrom(a, i), depth, limit))
    decreases a, 0, |a.fields| - i
  {
    hide NoDepthError;
    hide NameErrors;
    hide FieldProgress;
    hide FieldLevels;
    if i < |a.fields| {
      NameStep(p.errors, a.fields[i].name, DupAssertionField, names);
      var named := p.(errors := NameErrors(p.errors, a.fields[i].name, DupAssertionField, names));
      FieldStep(named, a.fields[i], scope, depth, limit);
      FieldsStep(FieldProgress(named, a.fields[i], scope, depth, limit), a, i + 1, names + {a.fields[i].name}, scope,
                 depth, limit);
    }
  }

  lemma {:induction false} ResponseHeadersStep(
    errors: Errors, entries: seq<ResponseHeaderAst>, scope: set<string>, names: set<string>)
    ensures Step(errors, ResponseHeadersErrors(errors, entries, scope, names), true)
    decreases |entries|
  {
    hide NoDepthError;
    hide HeaderNameErrors;
    hide TextErrors;
    hide Lower;
    if entries != [] {
      NameStep(errors, entries[0].name, DupResponseHeader, names);
      var named := HeaderNameErrors(errors, entries[0].name, DupResponseHeader, names);
      if !entries[0].ExistsAst? {
        TextStep(named, entries[0].text, scope);
      }
      ResponseHeadersStep(if entries[0].ExistsAst? then named else TextErrors(named, entries[0].text, scope),
                          entries[1..], scope, names + {Lower(entries[0].name)});
    }
  }

  lemma ExpectationSectionStep(scan: ExpectationScan, section: ExpectationSection, scope: set<string>, limit: nat)
    ensures Step(scan.progress.errors, ExpectationSectionScan(scan, section, scope, limit).progress.errors,
                 ExpectationSectionLevels(section) <= limit)
  {
    hide NoDepthError;
    hide AddIf;
    hide ResponseHeadersErrors;
    hide TextErrors;
    hide AssertionProgress;
    var p := scan.progress;
    match section
    case StatusSection(status) =>
      AppendedIf(p.errors, scan.sawStatus, Duplicate(DupResponseStatus));
      AppendedIf(AddIf(p.errors, scan.sawStatus, Duplicate(DupResponseStatus)), !(100 <= status <= 599),
                 InvalidHttpStatus(status));
    case HeadersSection(entries) =>
      AppendedIf(p.errors, scan.sawHeaders, Duplicate(DupResponseHeaders));
      ResponseHeadersStep(
        AddIf(p.errors, scan.sawHeaders, Duplicate(DupResponseHeaders)), entries, scope, scan.headerNames);
    case BodySection(body) =>
      AppendedIf(p.errors, scan.sawBody, Duplicate(DupResponseBody));
      var errors := AddIf(p.errors, scan.sawBody, Duplicate(DupResponseBody));
      if body.ObjectBody? {
        AssertionStep(p.(errors := errors), body.shape, scope, 0, limit);
      } else if !body.EmptyBody? {
        TextStep(errors, body.text, scope);
      }
  }

  lemma {:induction false} ExpectationSectionsStep(
    scan: ExpectationScan, sections: seq<ExpectationSection>, scope: set<string>, limit: nat)
    ensures Step(scan.progress.errors, ExpectationSectionsScan(scan, sections, scope, limit).progress.errors,
                 ExpectationSectionsLevels(sections) <= limit)
    decreases |sections|
  {
    hide NoDepthError;
    hide ExpectationSectionScan;
    hide ExpectationSectionLevels;
    if sections != [] {
      ExpectationSectionStep(scan, sections[0], scope, limit);
      ExpectationSectionsStep(ExpectationSectionScan(scan, sections[0], scope, limit), sections[1..], scope, limit);
    }
  }

  lemma {:induction false} ExpectationsStep(
    p: Progress, expectations: seq<ExpectationAst>, scope: set<string>, limit: nat)
    ensures Step(p.errors, ExpectationsProgress(p, expectations, scope, limit).errors,
                 ExpectationsLevels(expectations) <= limit)
    decreases |expectations|
  {
    hide NoDepthError;
    hide ExpectationSectionsScan;
    hide ExpectationSectionsLevels;
    if expectations != [] {
      ExpectationSectionsStep(
        ExpectationScan(p, false, false, false, {}), expectations[0].sections, scope, limit);
      ExpectationsStep(ExpectationProgress(p, expectations[0], scope, limit), expectations[1..], scope, limit);
    }
  }

  // ---- tests and suites ----

  lemma {:induction false} RepeatStep(errors: Errors, count: nat, kind: ErrorKind)
    requires !kind.NestingLimitExceeded?
    ensures Step(errors, RepeatError(errors, count, kind), true)
    decreases count
  {
    hide NoDepthError;
    if count > 1 {
      Appended(errors, kind);
      RepeatStep(errors + [kind], count - 1, kind);
    }
  }

  lemma CountStep(errors: Errors, test: TestAst)
    ensures Step(errors, TestCountErrors(errors, test), true)
  {
    hide NoDepthError;
    hide AddIf;
    hide RepeatError;
    AppendedIf(errors, test.name == "", EmptyTestName);
    var named := AddIf(errors, test.name == "", EmptyTestName);
    AppendedIf(named, |test.requests| != 1, InvalidRequestCount);
    var counted := AddIf(named, |test.requests| != 1, InvalidRequestCount);
    RepeatStep(counted, |test.requests|, Duplicate(DupRequest));
    var requests := RepeatError(counted, |test.requests|, Duplicate(DupRequest));
    AppendedIf(requests, |test.expectations| != 1, InvalidExpectationCount);
    RepeatStep(AddIf(requests, |test.expectations| != 1, InvalidExpectationCount), |test.expectations|,
               Duplicate(DupExpectation));
  }

  lemma TestStep(errors: Errors, test: TestAst, scope: set<string>, limit: nat)
    ensures Step(errors, TestProgress(errors, test, scope, limit).0, TestLevels(test) <= limit)
  {
    hide NoDepthError;
    hide TestCountErrors;
    hide RequestsErrors;
    hide RequestsLevels;
    hide ExpectationsProgress;
    hide ExpectationsLevels;
    CountStep(errors, test);
    var all := TestCountErrors(errors, test);
    RequestsStep(all, test.requests, scope, limit);
    ExpectationsStep(Progress(RequestsErrors(all, test.requests, scope, limit), {}), test.expectations, scope, limit);
  }

  lemma {:induction false} TestsStep(errors: Errors, tests: seq<TestAst>, scope: set<string>, limit: nat)
    ensures Step(errors, TestsProgress(errors, tests, scope, limit).0, TestsLevels(tests) <= limit)
    decreases |tests|
  {
    hide NoDepthError;
    hide TestProgress;
    hide TestLevels;
    if tests != [] {
      TestStep(errors, tests[0], scope, limit);
      var (next, grown) := TestProgress(errors, tests[0], scope, limit);
      TestsStep(next, tests[1..], grown, limit);
    }
  }

  lemma {:induction false} CoresStep(errors: Errors, blocks: seq<BlockAst>, seen: bool)
    ensures Step(errors, CoreErrors(errors, blocks, seen), true)
    decreases |blocks|
  {
    hide NoDepthError;
    hide AddIf;
    if blocks != [] {
      AppendedIf(errors, seen, Duplicate(DupCoreBlock));
      if blocks[0].CoreAst? {
        CoresStep(AddIf(errors, seen, Duplicate(DupCoreBlock)), blocks[1..], true);
      } else {
        CoresStep(errors, blocks[1..], seen);
      }
    }
  }

  lemma BlockStep(errors: Errors, block: BlockAst, predefined: set<string>, afterCore: set<string>, limit: nat)
    ensures Step(errors, BlockErrors(errors, block, predefined, afterCore, limit), BlockLevels(block) <= limit)
  {
    hide NoDepthError;
    hide AddIf;
    hide TestProgress;
    hide TestsProgress;
    hide TestLevels;
    hide TestsLevels;
    match block
    case CoreAst(tests) => TestsStep(errors, tests, predefined, limit);
    case PipelineAst(name, tests) =>
      AppendedIf(errors, name == "", EmptyPipelineName);
      var named := AddIf(errors, name == "", EmptyPipelineName);
      AppendedIf(named, tests == [], EmptyPipeline);
      TestsStep(AddIf(named, tests == [], EmptyPipeline), tests, afterCore, limit);
    case StandaloneAst(test) => TestStep(errors, test, afterCore, limit);
  }

  /** All blocks from `i` on but the one validated first. */
  predicate BlocksShallow(blocks: seq<BlockAst>, i: nat, firstCore: Option<nat>, limit: nat) {
    forall k | i <= k < |blocks| && Some(k) != firstCore :: BlockLevels(blocks[k]) <= limit
  }

  lemma {:induction false} BlocksStep(
    errors: Errors, blocks: seq<BlockAst>, i: nat, firstCore: Option<nat>, predefined: set<string>,
    afterCore: set<string>, limit: nat)
    requires i <= |blocks|
    ensures Step(errors, BlocksErrorsFrom(errors, blocks, i, firstCore, predefined, afterCore, limit),
                 BlocksShallow(blocks, i, firstCore, limit))
    decreases |blocks| - i
  {
    hide BlockErrors;
    hide BlockLevels;
    hide NoDepthError;
    if i < |blocks| {
      BlockStep(errors, blocks[i], predefined, afterCore, limit);
      var next :=
        if Some(i) == firstCore then errors else BlockErrors(errors, blocks[i], predefined, afterCore, limit);
      BlocksStep(next, blocks, i + 1, firstCore, predefined, afterCore, limit);
    }
  }

  lemma {:induction false} BlocksLevelsMeaning(blocks: seq<BlockAst>, limit: nat)
    ensures BlocksLevels(blocks) <= limit <==> forall k | 0 <= k < |blocks| :: BlockLevels(blocks[k]) <= limit
  {
    hide BlockLevels;
    if blocks != [] {
      BlocksLevelsMeaning(blocks[1..], limit);
      assert forall k | 0 < k < |blocks| :: blocks[k] == blocks[1..][k - 1];
    }
  }

  /** Validation reports nesting iff containers are nested deeper than the limit, in whatever block. */
  lemma NestingIsExact(ast: SuiteAst, predefined: set<string>, limit: nat)
    ensures NoDepthError(SuiteErrors(ast, predefined, limit)) <==> SuiteLevels(ast) <= limit
  {
    hide NoDepthError;
    hide CoreErrors;
    hide TestsProgress;
    hide BlocksErrorsFrom;
    hide TestsLevels;
    hide BlocksLevels;
    var firstCore := FirstCore(ast.blocks, 0);
    NothingYet();
    CoresStep([], ast.blocks, false);
    BlocksLevelsMeaning(ast.blocks, limit);
    var counted := CoreErrors([], ast.blocks, false);
    if firstCore.Some? {
      var core := ast.blocks[firstCore.value];
      TestsStep(counted, core.tests, predefined, limit);
      var (errors, afterCore) := TestsProgress(counted, core.tests, predefined, limit);
      BlocksStep(errors, ast.blocks, 0, firstCore, predefined, afterCore, limit);
      assert BlockLevels(core) == TestsLevels(core.tests);
    } else {
      BlocksStep(counted, ast.blocks, 0, firstCore, predefined, predefined, limit);
    }
  }

  lemma NothingYet()
    ensures NoDepthError([])
  {
  }

  /** A body that asserts one field is a level already: a limit of zero rejects it. */
  lemma LimitZeroRejectsTheRoot(predefined: set<string>)
    ensures var field := FieldAssertionAst("value", Some(TString), None, None, None);
            var body := BodySection(ObjectBody(ObjectAssertionAst(MatchPartial, [field])));
            var test := TestAst("root", [RequestAst(GET, "/", [])], [ExpectationAst([StatusSection(200), body])]);
            var ast := SuiteAst([StandaloneAst(test)]);
            && SuiteLevels(ast) == 1
            && !NoDepthError(SuiteErrors(ast, predefined, 0)) && NoDepthError(SuiteErrors(ast, predefined, 1))
  {
    hide SuiteErrors;
    hide NoDepthError;
    var field := FieldAssertionAst("value", Some(TString), None, None, None);
    var shape := ObjectAssertionAst(MatchPartial, [field]);
    var sections := [StatusSection(200), BodySection(ObjectBody(shape))];
    var test := TestAst("root", [RequestAst(GET, "/", [])], [ExpectationAst(sections)]);
    var ast := SuiteAst([StandaloneAst(test)]);
    assert AssertionLevels(shape) == 1 + FieldsLevelsFrom(shape, 0) && FieldsLevelsFrom(shape, 1) == 0;
    assert sections[1..] == [BodySection(ObjectBody(shape))] && sections[1..][1..] == [];
    assert ExpectationSectionsLevels(sections[1..]) == 1;
    assert ExpectationSectionsLevels(sections) == 1;
    assert test.expectations[1..] == [] && test.requests[1..] == [];
    assert ExpectationsLevels(test.expectations) == 1;
    assert RequestsLevels(test.requests) == Max(SectionsLevels([]), RequestsLevels([])) == 0;
    assert BlockLevels(ast.blocks[0]) == TestLevels(test) == 1;
    assert ast.blocks[1..] == [] && BlocksLevels([]) == 0;
    assert SuiteLevels(ast) == Max(BlockLevels(ast.blocks[0]), BlocksLevels(ast.blocks[1..])) == 1;
    NestingIsExact(ast, predefined, 0);
    NestingIsExact(ast, predefined, 1);
  }

  // ---- parsed trees ----

  lemma {:induction false} FittingValue(value: ValueAst, room: nat)
    requires ValueFits(value, room)
    ensures ValueLevels(value) <= room
    decreases value
  {
    match value
    case ArrayAst(items) => FittingItems(items, room - 1);
    case ObjectAst(entries) => FittingEntries(entries, room - 1);
    case _ =>
  }

  lemma {:induction false} FittingItems(items: seq<ValueAst>, room: nat)
    requires ItemsFit(items, room)
    ensures ItemsLevels(items) <= room
    decreases items
  {
    hide ValueFits;
    hide ValueLevels;
    if items != [] {
      FittingValue(items[0], room);
      FittingItems(items[1..], room);
    }
  }

  lemma {:induction false} FittingEntries(entries: Entries<ValueAst>, room: nat)
    requires EntriesFit(entries, room)
    ensures EntriesLevels(entries) <= room
    decreases entries
  {
    hide ValueFits;
    hide ValueLevels;
    if entries != [] {
      FittingEntry(entries[0], room);
      FittingEntries(entries[1..], room);
    }
  }

  lemma {:induction false} FittingEntry(entry: (string, ValueAst), room: nat)
    requires ValueFits(entry.1, room)
    ensures EntryLevels(entry) <= room
    decreases entry
  {
    hide ValueFits;
    hide ValueLevels;
    FittingValue(entry.1, room);
  }

  lemma {:induction false} FittingSections(sections: seq<RequestSection>, room: nat)
    requires SectionsFit(sections, room)
    ensures SectionsLevels(sections) <= room
    decreases |sections|
  {
    hide EntriesFit;
    hide EntriesLevels;
    if sections != [] {
      assert SectionFits(sections[0], room);
      match sections[0] {
        case RequestHeaders(entries) => FittingEntries(entries, room);
        case RequestQuery(entries) => FittingEntries(entries, room - 1);
        case RequestBodySection(entries) => FittingEntries(entries, room - 1);
      }
      FittingSections(sections[1..], room);
    }
  }

  lemma {:induction false} FittingRequests(requests: seq<RequestAst>, room: nat)
    requires forall k | 0 <= k < |requests| :: RequestFits(requests[k], room)
    ensures RequestsLevels(requests) <= room
    decreases |requests|
  {
    hide SectionsFit;
    hide SectionsLevels;
    if requests != [] {
      assert RequestFits(requests[0], room);
      FittingSections(requests[0].sections, room);
      FittingRequests(requests[1..], room);
    }
  }

  lemma {:induction false} FittingField(field: FieldAssertionAst, room: nat)
    requires FieldFits(field, room)
    ensures FieldLevels(field) <= room
    decreases field, 2, 0
  {
    hide ValueFits;
    hide ValueLevels;
    hide AssertionFits;
    hide AssertionLevels;
    if field.expectedValue.Some? {
      FittingValue(field.expectedValue.value, room);
    }
    if field.nested.Some? {
      FittingAssertion(field.nested.value, room);
    }
  }

  lemma {:induction false} FittingAssertion(a: ObjectAssertionAst, room: nat)
    requires AssertionFits(a, room)
    ensures AssertionLevels(a) <= room
    decreases a, 1, 0
  {
    hide FieldFits;
    hide FieldLevels;
    FittingFields(a, 0, room - 1);
  }

  lemma {:induction false} FittingFields(a: ObjectAssertionAst, i: nat, room: nat)
    requires i <= |a.fields| && FieldsFit(a.fields, room)
    ensures FieldsLevelsFrom(a, i) <= room
    decreases a, 0, |a.fields| - i
  {
    hide FieldFits;
    hide FieldLevels;
    if i < |a.fields| {
      FittingField(a.fields[i], room);
      FittingFields(a, i + 1, room);
    }
  }

  lemma {:induction false} FittingExpectationSections(sections: seq<ExpectationSection>, room: nat)
    requires ExpectationFits(ExpectationAst(sections), room)
    ensures ExpectationSectionsLevels(sections) <= room
    decreases |sections|
  {
    hide AssertionFits;
    hide AssertionLevels;
    if sections != [] {
      var expectation := ExpectationAst(sections);
      assert ExpectationSectionFits(expectation.sections[0], room);
      if sections[0].BodySection? && sections[0].body.ObjectBody? {
        FittingAssertion(sections[0].body.shape, room);
      }
      FittingExpectationSections(sections[1..], room);
    }
  }

  lemma {:induction false} FittingExpectations(expectations: seq<ExpectationAst>, room: nat)
    requires forall k | 0 <= k < |expectations| :: ExpectationFits(expectations[k], room)
    ensures ExpectationsLevels(expectations) <= room
    decreases |expectations|
  {
    hide ExpectationFits;
    hide ExpectationSectionsLevels;
    if expectations != [] {
      FittingExpectationSections(expectations[0].sections, room);
      FittingExpectations(expectations[1..], room);
    }
  }

  lemma FittingTest(test: TestAst, room: nat)
    requires TestFits(test, room)
    ensures TestLevels(test) <= room
  {
    hide RequestFits;
    hide ExpectationFits;
    hide RequestsLevels;
    hide ExpectationsLevels;
    FittingRequests(test.requests, room);
    FittingExpectations(test.expectations, room);
  }

  lemma {:induction false} FittingTests(tests: seq<TestAst>, room: nat)
    requires TestsFit(tests, room)
    ensures TestsLevels(tests) <= room
    decreases |tests|
  {
    hide TestFits;
    hide TestLevels;
    if tests != [] {
      FittingTest(tests[0], room);
      FittingTests(tests[1..], room);
    }
  }

  lemma FittingBlock(block: BlockAst, room: nat)
    requires BlockFits(block, room)
    ensures BlockLevels(block) <= room
  {
    hide TestFits;
    hide TestsFit;
    hide TestLevels;
    hide TestsLevels;
    match block
    case CoreAst(tests) => FittingTests(tests, room);
    case PipelineAst(_, tests) => FittingTests(tests, room);
    case StandaloneAst(test) => FittingTest(test, room);
  }

  /** A tree accepted by the parser under a limit is never too deep for the validator under the same limit. */
  lemma ParsedTreesAreNotTooDeep(ast: SuiteAst, predefined: set<string>, limit: nat)
    requires SuiteFits(ast, limit)
    ensures SuiteLevels(ast) <= limit && NoDepthError(SuiteErrors(ast, predefined, limit))
  {
    hide SuiteErrors;
    hide NoDepthError;
    hide BlockFits;
    hide BlockLevels;
    forall k | 0 <= k < |ast.blocks| ensures BlockLevels(ast.blocks[k]) <= limit {
      FittingBlock(ast.blocks[k], limit);
    }
    BlocksLevelsMeaning(ast.blocks, limit);
    NestingIsExact(ast, predefined, limit);
  }
}
