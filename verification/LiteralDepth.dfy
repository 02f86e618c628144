/**
 * When resolution fails, crates/rettp-runtime/src/resolver.rs and interpolation.rs: the first failure in source order
 * decides, and literals that passed the front end's nesting limit are never the reason for a nesting error.
 */
module LiteralDepth {
  import opened Wrappers
  import opened Text
  import opened IndexMap
  import opened JsonValues
  import opened Domain
  import opened Template
  import opened Variables
  import opened RuntimeErrors
  import opened Interpolation
  import opened Resolver
  import opened ResolverFacts

  /** Containers nested in each other inside a literal. */
  function ValueHeight(value: Value): nat {
    match value
    case ArrayValue(items) => 1 + ValuesHeight(items)
    case ObjectValue(fields) => 1 + EntriesHeight(fields)
    case _ => 0
  }

  function ValuesHeight(items: seq<Value>): nat {
    if items == [] then 0 else Max(ValueHeight(items[0]), ValuesHeight(items[1..]))
  }

  function EntriesHeight(entries: Entries<Value>): nat {
    if entries == [] then 0 else Max(EntryHeight(entries[0]), EntriesHeight(entries[1..]))
  }

  function EntryHeight(entry: (string, Value)): nat {
    ValueHeight(entry.1)
  }

  /** Levels of an object assertion: itself, and below it values and nested assertions. */
  function AssertionHeight(a: ObjectAssertion): nat
    decreases a, 1, 0
  {
    1 + FieldsHeightFrom(a, 0)
  }

  function FieldsHeightFrom(a: ObjectAssertion, i: nat): nat
    requires i <= |a.fields|
    decreases a, 0, |a.fields| - i
  {
    if i == |a.fields| then 0 else Max(FieldAssertionHeight(a.fields[i].1), FieldsHeightFrom(a, i + 1))
  }

  function FieldAssertionHeight(field: FieldAssertion): nat
    decreases field, 2, 0
  {
    Max(if field.expectedValue.Some? then ValueHeight(field.expectedValue.value) else 0,
        if field.nested.Some? then AssertionHeight(field.nested.value) else 0)
  }

  // ---- what resolution visits, in order ----

  /** A nesting level entered, a text substituted, a text that may stand for a structured value, or a lost number. */
  datatype Visit =
    | Level(depth: nat)
    | Plain(raw: string, location: ResolutionLocation)
    | Slot(raw: string, location: ResolutionLocation, depth: nat)
    | LostNumber

  function ValueVisits(value: Value, location: ResolutionLocation, allowStructured: bool, depth: nat): seq<Visit>
    decreases value
  {
    [Level(depth)] +
    match value
    case StringValue(raw) => [if allowStructured then Slot(raw, location, depth) else Plain(raw, location)]
    case NumberValue(NonFinite) => [LostNumber]
    case ArrayValue(items) => ItemsVisits(items, location, allowStructured, depth + 1)
    case ObjectValue(fields) => EntriesVisits(fields, location, allowStructured, depth + 1)
    case _ => []
  }

  function ItemsVisits(items: seq<Value>, location: ResolutionLocation, allowStructured: bool, depth: nat): seq<Visit>
    decreases items
  {
    if items == [] then []
    else
      ValueVisits(items[0], location, allowStructured, depth)
      + ItemsVisits(items[1..], location, allowStructured, depth)
  }

  function EntriesVisits(
    entries: Entries<Value>, location: ResolutionLocation, allowStructured: bool, depth: nat): seq<Visit>
    decreases entries
  {
    if entries == [] then []
    else
      EntryVisits(entries[0], location, allowStructured, depth)
      + EntriesVisits(entries[1..], location, allowStructured, depth)
  }

  function EntryVisits(
    entry: (string, Value), location: ResolutionLocation, allowStructured: bool, depth: nat): seq<Visit>
    decreases entry
  {
    ValueVisits(entry.1, location, allowStructured, depth)
  }

  function ObjectVisits(a: ObjectAssertion, depth: nat): seq<Visit>
    decreases a, 1, 0
  {
    [Level(depth)] + FieldsVisitsFrom(a, 0, depth + 1)
  }

  function FieldsVisitsFrom(a: ObjectAssertion, i: nat, depth: nat): seq<Visit>
    requires i <= |a.fields|
    decreases a, 0, |a.fields| - i
  {
    if i == |a.fields| then [] else FieldVisits(a.fields[i].1, depth) + FieldsVisitsFrom(a, i + 1, depth)
  }

  function ExpectedVisits(value: Option<Value>, depth: nat): seq<Visit> {
    if value.None? then [] else ValueVisits(value.value, ResolutionLocation.ExpectedJson, true, depth)
  }

  function FieldVisits(field: FieldAssertion, depth: nat): seq<Visit>
    decreases field, 2, 0
  {
    [Level(depth)] + ExpectedVisits(field.expectedValue, depth)
    + if field.nested.None? then [] else ObjectVisits(field.nested.value, depth)
  }

  function HeadersVisits(headers: Entries<HeaderAssertion>): seq<Visit> {
    if headers == [] then []
    else
      (if headers[0].1.Exists? then [] else [Plain(headers[0].1.raw, ResolutionLocation.ExpectedHeader)])
      + HeadersVisits(headers[1..])
  }

  function RequestBodyVisits(body: Option<RequestBody>): seq<Visit> {
    match body
    case None => []
    case Some(JsonRequest(value)) => ValueVisits(value, JsonRequestBody, true, 0)
    case Some(TextRequest(raw)) => [Plain(raw, TextRequestBody)]
    case Some(FormRequest(fields)) => EntriesVisits(fields, FormField, false, 0)
    case Some(BinaryRequest(_)) => []
  }

  function RequestVisits(request: HttpRequestSpec): seq<Visit> {
    [Plain(request.path, RequestPath)]
    + (EntriesVisits(request.headers, RequestHeader, false, 0)
       + (EntriesVisits(request.query, QueryParameter, false, 0) + RequestBodyVisits(request.body)))
  }

  function BodyVisits(body: Option<BodyAssertion>): seq<Visit> {
    match body
    case None => []
    case Some(EmptyAssertion) => []
    case Some(TextBodyAssertion(text)) => [Plain(text.raw, ResolutionLocation.ExpectedText)]
    case Some(JsonAssertion(shape)) => ObjectVisits(shape, 0)
  }

  function ExpectationVisits(expectation: ResponseExpectation): seq<Visit> {
    HeadersVisits(expectation.headers) + BodyVisits(expectation.body)
  }

  // ---- which visits fail ----

  function ErrorOf<T>(r: Result<T, RuntimeError>): Option<RuntimeError> {
    if r.Ok? then None else Some(r.error)
  }

  function TooDeepIf(config: RuntimeConfig, depth: nat): Option<RuntimeError> {
    if depth > config.maxResolutionDepth then Some(NestingLimitExceeded(config.maxResolutionDepth)) else None
  }

  function VisitError(config: RuntimeConfig, visit: Visit, variables: Contents): Option<RuntimeError> {
    match visit
    case Level(depth) => TooDeepIf(config, depth)
    case Plain(raw, location) => ErrorOf(Interpolated(config, raw, variables, location))
    case LostNumber => Some(NonFiniteNumber)
    case Slot(raw, location, depth) =>
      match StructuredPlaceholder(config, raw, variables, location)
      case Err(error) => Some(error)
      case Ok(Some(json)) => TooDeepIf(config, depth + NodeDepth(json))
      case Ok(None) => ErrorOf(Interpolated(config, raw, variables, location))
  }

  function FirstFailure(config: RuntimeConfig, visits: seq<Visit>, variables: Contents): Option<RuntimeError> {
    if visits == [] then None
    else
      var error := VisitError(config, visits[0], variables);
      if error.Some? then error else FirstFailure(config, visits[1..], variables)
  }

  predicate FailsFirst(config: RuntimeConfig, visits: seq<Visit>, variables: Contents, k: nat) {
    && k < |visits| && VisitError(config, visits[k], variables).Some?
    && forall j | 0 <= j < k :: VisitError(config, visits[j], variables).None?
  }

  /** An exact placeholder naming a structured variable that is too deep for where the placeholder stands. */
  predicate Overflows(config: RuntimeConfig, visit: Visit, variables: Contents) {
    && visit.Slot?
    && var name := ExactPlaceholder(visit.raw);
       && name.Some?
       && var content := Lookup(config, name.value, variables, visit.location);
          && content.Ok? && content.value.IsStructured()
          && visit.depth + NodeDepth(content.value.json) > config.maxResolutionDepth
  }

  /** A level of the literals themselves beyond the limit. */
  predicate LevelExceeds(config: RuntimeConfig, visit: Visit) {
    visit.Level? && visit.depth > config.maxResolutionDepth
  }

  predicate TooDeep<T>(r: Result<T, RuntimeError>) {
    r.Err? && r.error.NestingLimitExceeded?
  }

  lemma {:induction false} FailureAppend(config: RuntimeConfig, a: seq<Visit>, b: seq<Visit>, variables: Contents)
    ensures var first := FirstFailure(config, a, variables);
            FirstFailure(config, a + b, variables)
            == if first.Some? then first else FirstFailure(config, b, variables)
    decreases |a|
  {
    hide VisitError;
    if a == [] {
      assert a + b == b;
    } else {
      assert (a + b)[1..] == a[1..] + b;
      FailureAppend(config, a[1..], b, variables);
    }
  }

  lemma FailureOfOne(config: RuntimeConfig, visit: Visit, variables: Contents)
    ensures FirstFailure(config, [visit], variables) == VisitError(config, visit, variables)
  {
    hide VisitError;
    assert [visit][1..] == [];
    assert FirstFailure(config, [], variables).None?;
  }

  lemma FailureBehind(config: RuntimeConfig, visit: Visit, rest: seq<Visit>, variables: Contents)
    ensures var first := VisitError(config, visit, variables);
            FirstFailure(config, [visit] + rest, variables)
            == if first.Some? then first else FirstFailure(config, rest, variables)
  {
    hide VisitError;
    hide FirstFailure;
    FailureOfOne(config, visit, variables);
    FailureAppend(config, [visit], rest, variables);
  }

  /** There is a failure iff some visit is the first to fail, and then it is that visit's. */
  lemma {:induction false} FailureIsFirst(config: RuntimeConfig, visits: seq<Visit>, variables: Contents)
    returns (k: nat)
    ensures k <= |visits|
    ensures forall j | 0 <= j < k :: VisitError(config, visits[j], variables).None?
    ensures FirstFailure(config, visits, variables)
         == if k == |visits| then None else VisitError(config, visits[k], variables)
    ensures k < |visits| ==> FailsFirst(config, visits, variables, k)
    decreases |visits|
  {
    hide VisitError;
    k := 0;
    if visits != [] && VisitError(config, visits[0], variables).None? {
      var rest := FailureIsFirst(config, visits[1..], variables);
      k := rest + 1;
      forall j | 0 <= j < k ensures VisitError(config, visits[j], variables).None? {
        assert j == 0 || visits[j] == visits[1..][j - 1];
      }
    }
  }

  // ---- resolution fails with the first failing visit ----

  lemma {:induction false} ValueFailure(
    config: RuntimeConfig, value: Value, variables: Contents, location: ResolutionLocation, allowStructured: bool,
    depth: nat)
    ensures ErrorOf(ResolveValue(config, value, variables, location, allowStructured, depth))
         == FirstFailure(config, ValueVisits(value, location, allowStructured, depth), variables)
    decreases value
  {
    hide FirstFailure;
    hide Interpolated;
    hide StructuredPlaceholder;
    hide ValueVisits;
    hide ItemsVisits;
    hide EntriesVisits;
    hide JsonToResolved;
    hide ResolveItems;
    hide ResolveEntries;
    ValueVisitsSplit(config, value, variables, location, allowStructured, depth);
    match value
    case StringValue(raw) =>
      var structured := StructuredPlaceholder(config, raw, variables, location);
      if structured.Ok? && structured.value.Some? {
        JsonToResolvedIsExact(config, structured.value.value, depth);
      }
    case ArrayValue(items) => ItemsFailure(config, items, variables, location, allowStructured, depth + 1);
    case ObjectValue(fields) => EntriesFailure(config, fields, variables, location, allowStructured, depth + 1);
    case _ =>
  }

  lemma ValueVisitsSplit(
    config: RuntimeConfig, value: Value, variables: Contents, location: ResolutionLocation, allowStructured: bool,
    depth: nat)
    ensures FirstFailure(config, ValueVisits(value, location, allowStructured, depth), variables)
         == if depth > config.maxResolutionDepth then Some(NestingLimitExceeded(config.maxResolutionDepth))
            else
              match value
              case StringValue(raw) =>
                VisitError(
                  config, if allowStructured then Slot(raw, location, depth) else Plain(raw, location), variables)
              case NumberValue(NonFinite) => Some(NonFiniteNumber)
              case ArrayValue(items) =>
                FirstFailure(config, ItemsVisits(items, location, allowStructured, depth + 1), variables)
              case ObjectValue(fields) =>
                FirstFailure(config, EntriesVisits(fields, location, allowStructured, depth + 1), variables)
              case _ => None
  {
    hide FirstFailure;
    hide Interpolated;
    hide StructuredPlaceholder;
    hide ItemsVisits;
    hide EntriesVisits;
    NoFailure(config, variables);
    match value
    case StringValue(raw) =>
      var visit := if allowStructured then Slot(raw, location, depth) else Plain(raw, location);
      FailureBehind(config, Level(depth), [visit], variables);
      FailureOfOne(config, visit, variables);
    case NumberValue(NonFinite) =>
      FailureBehind(config, Level(depth), [LostNumber], variables);
      FailureOfOne(config, LostNumber, variables);
    case ArrayValue(items) =>
      FailureBehind(config, Level(depth), ItemsVisits(items, location, allowStructured, depth + 1), variables);
    case ObjectValue(fields) =>
      FailureBehind(config, Level(depth), EntriesVisits(fields, location, allowStructured, depth + 1), variables);
    case _ => FailureBehind(config, Level(depth), [], variables);
  }

  lemma NoFailure(config: RuntimeConfig, variables: Contents)
    ensures FirstFailure(config, [], variables).None?
  {
  }

  lemma {:induction false} ItemsFailure(
    config: RuntimeConfig, items: seq<Value>, variables: Contents, location: ResolutionLocation, allowStructured: bool,
    depth: nat)
    ensures ErrorOf(ResolveItems(config, items, variables, location, allowStructured, depth))
         == FirstFailure(config, ItemsVisits(items, location, allowStructured, depth), variables)
    decreases items
  {
    hide FirstFailure;
    hide ResolveValue;
    hide ValueVisits;
    NoFailure(config, variables);
    if items != [] {
      ValueFailure(config, items[0], variables, location, allowStructured, depth);
      ItemsFailure(config, items[1..], variables, location, allowStructured, depth);
      FailureAppend(config, ValueVisits(items[0], location, allowStructured, depth),
                    ItemsVisits(items[1..], location, allowStructured, depth), variables);
    }
  }

  lemma {:induction false} EntriesFailure(
    config: RuntimeConfig, entries: Entries<Value>, variables: Contents, location: ResolutionLocation,
    allowStructured: bool, depth: nat)
    ensures ErrorOf(ResolveEntries(config, entries, variables, location, allowStructured, depth))
         == FirstFailure(config, EntriesVisits(entries, location, allowStructured, depth), variables)
    decreases entries
  {
    hide FirstFailure;
    hide ResolveValue;
    hide ValueVisits;
    hide ResolveEntry;
    hide EntryVisits;
    NoFailure(config, variables);
    if entries != [] {
      EntryFailure(config, entries[0], variables, location, allowStructured, depth);
      EntriesFailure(config, entries[1..], variables, location, allowStructured, depth);
      FailureAppend(config, EntryVisits(entries[0], location, allowStructured, depth),
                    EntriesVisits(entries[1..], location, allowStructured, depth), variables);
    }
  }

  lemma {:induction false} EntryFailure(
    config: RuntimeConfig, entry: (string, Value), variables: Contents, location: ResolutionLocation,
    allowStructured: bool, depth: nat)
    ensures ErrorOf(ResolveEntry(config, entry, variables, location, allowStructured, depth))
         == FirstFailure(config, EntryVisits(entry, location, allowStructured, depth), variables)
    decreases entry
  {
    hide FirstFailure;
    hide ResolveValue;
    hide ValueVisits;
    ValueFailure(config, entry.1, variables, location, allowStructured, depth);
  }

  /** Expected values visit the same places, although they are resolved by a function of their own. */
  lemma {:induction false} JsonFailure(
    config: RuntimeConfig, value: Value, variables: Contents, location: ResolutionLocation, depth: nat)
    ensures ErrorOf(ResolveJson(config, value, variables, location, depth))
         == FirstFailure(config, ValueVisits(value, location, true, depth), variables)
    decreases value
  {
    hide FirstFailure;
    hide Interpolated;
    hide StructuredPlaceholder;
    hide ValueVisits;
    hide ItemsVisits;
    hide EntriesVisits;
    hide CloneBounded;
    hide ResolveJsonItems;
    hide ResolveJsonEntries;
    ValueVisitsSplit(config, value, variables, location, true, depth);
    match value
    case StringValue(raw) =>
      var structured := StructuredPlaceholder(config, raw, variables, location);
      if structured.Ok? && structured.value.Some? {
        CloneIsExact(config, structured.value.value, depth);
      }
    case ArrayValue(items) => JsonItemsFailure(config, items, variables, location, depth + 1);
    case ObjectValue(fields) => JsonEntriesFailure(config, fields, variables, location, depth + 1);
    case _ =>
  }

  lemma {:induction false} JsonItemsFailure(
    config: RuntimeConfig, items: seq<Value>, variables: Contents, location: ResolutionLocation, depth: nat)
    ensures ErrorOf(ResolveJsonItems(config, items, variables, location, depth))
         == FirstFailure(config, ItemsVisits(items, location, true, depth), variables)
    decreases items
  {
    hide FirstFailure;
    hide ResolveJson;
    hide ValueVisits;
    NoFailure(config, variables);
    if items != [] {
      JsonFailure(config, items[0], variables, location, depth);
      JsonItemsFailure(config, items[1..], variables, location, depth);
      FailureAppend(config, ValueVisits(items[0], location, true, depth),
                    ItemsVisits(items[1..], location, true, depth), variables);
    }
  }

  lemma {:induction false} JsonEntriesFailure(
    config: RuntimeConfig, entries: Entries<Value>, variables: Contents, location: ResolutionLocation, depth: nat)
    ensures ErrorOf(ResolveJsonEntries(config, entries, variables, location, depth))
         == FirstFailure(config, EntriesVisits(entries, location, true, depth), variables)
    decreases entries
  {
    hide FirstFailure;
    hide ResolveJson;
    hide ValueVisits;
    hide ResolveJsonEntry;
    hide EntryVisits;
    NoFailure(config, variables);
    if entries != [] {
      JsonEntryFailure(config, entries[0], variables, location, depth);
      JsonEntriesFailure(config, entries[1..], variables, location, depth);
      FailureAppend(config, EntryVisits(entries[0], location, true, depth),
                    EntriesVisits(entries[1..], location, true, depth), variables);
    }
  }

  lemma {:induction false} JsonEntryFailure(
    config: RuntimeConfig, entry: (string, Value), variables: Contents, location: ResolutionLocation, depth: nat)
    ensures ErrorOf(ResolveJsonEntry(config, entry, variables, location, depth))
         == FirstFailure(config, EntryVisits(entry, location, true, depth), variables)
    decreases entry
  {
    hide FirstFailure;
    hide ResolveJson;
    hide ValueVisits;
    JsonFailure(config, entry.1, variables, location, depth);
  }

  lemma {:induction false} ObjectFailure(config: RuntimeConfig, a: ObjectAssertion, variables: Contents, depth: nat)
    ensures ErrorOf(ResolveObject(config, a, variables, depth))
         == FirstFailure(config, ObjectVisits(a, depth), variables)
    decreases a, 1, 0
  {
    hide FirstFailure;
    hide ResolveFieldsFrom;
    hide FieldsVisitsFrom;
    FieldsFailure(config, a, 0, variables, depth + 1);
    FailureBehind(config, Level(depth), FieldsVisitsFrom(a, 0, depth + 1), variables);
  }

  lemma {:induction false} FieldsFailure(
    config: RuntimeConfig, a: ObjectAssertion, i: nat, variables: Contents, depth: nat)
    requires i <= |a.fields|
    ensures ErrorOf(ResolveFieldsFrom(config, a, i, variables, depth))
         == FirstFailure(config, FieldsVisitsFrom(a, i, depth), variables)
    decreases a, 0, |a.fields| - i
  {
    hide FirstFailure;
    hide ResolveField;
    hide FieldVisits;
    NoFailure(config, variables);
    if i < |a.fields| {
      FieldFailure(config, a.fields[i].1, variables, depth);
      FieldsFailure(config, a, i + 1, variables, depth);
      FailureAppend(config, FieldVisits(a.fields[i].1, depth), FieldsVisitsFrom(a, i + 1, depth), variables);
    }
  }

  lemma {:induction false} FieldFailure(config: RuntimeConfig, field: FieldAssertion, variables: Contents, depth: nat)
    ensures ErrorOf(ResolveField(config, field, variables, depth))
         == FirstFailure(config, FieldVisits(field, depth), variables)
    decreases field, 2, 0
  {
    hide FirstFailure;
    hide ResolveJson;
    hide ValueVisits;
    hide ResolveObject;
    hide ObjectVisits;
    NoFailure(config, variables);
    var expected := ExpectedVisits(field.expectedValue, depth);
    var nested := if field.nested.None? then [] else ObjectVisits(field.nested.value, depth);
    FailureBehind(config, Level(depth), expected, variables);
    FailureAppend(config, [Level(depth)] + expected, nested, variables);
    if field.expectedValue.Some? {
      JsonFailure(config, field.expectedValue.value, variables, ResolutionLocation.ExpectedJson, depth);
    }
    if field.nested.Some? {
      ObjectFailure(config, field.nested.value, variables, depth);
    }
  }

  lemma {:induction false} HeadersFailure(
    config: RuntimeConfig, headers: Entries<HeaderAssertion>, variables: Contents)
    ensures ErrorOf(ResolveHeaders(config, headers, variables))
         == FirstFailure(config, HeadersVisits(headers), variables)
  {
    hide FirstFailure;
    hide Interpolated;
    NoFailure(config, variables);
    if headers != [] {
      HeadersFailure(config, headers[1..], variables);
      if headers[0].1.Exists? {
        assert [] + HeadersVisits(headers[1..]) == HeadersVisits(headers[1..]);
      } else {
        FailureBehind(config, Plain(headers[0].1.raw, ResolutionLocation.ExpectedHeader),
                      HeadersVisits(headers[1..]), variables);
      }
    }
  }

  lemma RequestBodyFailure(config: RuntimeConfig, body: RequestBody, variables: Contents)
    ensures ErrorOf(ResolveRequestBody(config, body, variables))
         == FirstFailure(config, RequestBodyVisits(Some(body)), variables)
  {
    hide FirstFailure;
    hide Interpolated;
    hide ResolveValue;
    hide ValueVisits;
    hide ResolveEntries;
    hide EntriesVisits;
    NoFailure(config, variables);
    match body
    case JsonRequest(value) => ValueFailure(config, value, variables, JsonRequestBody, true, 0);
    case TextRequest(raw) => FailureOfOne(config, Plain(raw, TextRequestBody), variables);
    case FormRequest(fields) => EntriesFailure(config, fields, variables, FormField, false, 0);
    case BinaryRequest(_) =>
  }

  /** Resolving a request fails exactly with the first failing visit. */
  lemma RequestFailure(config: RuntimeConfig, request: HttpRequestSpec, variables: Contents)
    ensures ErrorOf(ResolveRequest(config, request, variables))
         == FirstFailure(config, RequestVisits(request), variables)
  {
    hide FirstFailure;
    hide Interpolated;
    hide ResolveEntries;
    hide EntriesVisits;
    hide ResolveRequestBody;
    NoFailure(config, variables);
    var headers := EntriesVisits(request.headers, RequestHeader, false, 0);
    var query := EntriesVisits(request.query, QueryParameter, false, 0);
    var body := RequestBodyVisits(request.body);
    FailureBehind(config, Plain(request.path, RequestPath), headers + (query + body), variables);
    FailureAppend(config, headers, query + body, variables);
    FailureAppend(config, query, body, variables);
    EntriesFailure(config, request.headers, variables, RequestHeader, false, 0);
    EntriesFailure(config, request.query, variables, QueryParameter, false, 0);
    if request.body.Some? {
      RequestBodyFailure(config, request.body.value, variables);
    }
  }

  lemma BodyFailure(config: RuntimeConfig, body: BodyAssertion, variables: Contents)
    ensures ErrorOf(ResolveBodyAssertion(config, body, variables))
         == FirstFailure(config, BodyVisits(Some(body)), variables)
  {
    hide FirstFailure;
    hide Interpolated;
    hide ResolveObject;
    hide ObjectVisits;
    NoFailure(config, variables);
    match body
    case EmptyAssertion =>
    case TextBodyAssertion(text) =>
      FailureOfOne(config, Plain(text.raw, ResolutionLocation.ExpectedText), variables);
    case JsonAssertion(shape) => ObjectFailure(config, shape, variables, 0);
  }

  /** The same for expectations. */
  lemma ExpectationFailure(config: RuntimeConfig, expectation: ResponseExpectation, variables: Contents)
    ensures ErrorOf(ResolveExpectation(config, expectation, variables))
         == FirstFailure(config, ExpectationVisits(expectation), variables)
  {
    hide FirstFailure;
    hide ResolveHeaders;
    hide HeadersVisits;
    hide ResolveBodyAssertion;
    NoFailure(config, variables);
    HeadersFailure(config, expectation.headers, variables);
    FailureAppend(config, HeadersVisits(expectation.headers), BodyVisits(expectation.body), variables);
    if expectation.body.Some? {
      BodyFailure(config, expectation.body.value, variables);
    }
  }

  // ---- nesting errors ----

  /** A visit fails for its depth iff its level or the value it stands for is too deep. */
  lemma DepthFailureMeaning(config: RuntimeConfig, visit: Visit, variables: Contents)
    ensures var error := VisitError(config, visit, variables);
            error.Some? && error.value.NestingLimitExceeded?
            <==> LevelExceeds(config, visit) || Overflows(config, visit, variables)
  {
    hide Substitute;
    hide Split;
    hide ByteLen;
    match visit
    case Level(_) =>
    case LostNumber =>
    case Plain(raw, location) => TextNotTooDeep(config, raw, Split(raw, 0), 0, variables, location, "");
    case Slot(raw, location, _) => TextNotTooDeep(config, raw, Split(raw, 0), 0, variables, location, "");
  }

  lemma FirstIsUnique(config: RuntimeConfig, visits: seq<Visit>, variables: Contents, i: nat, k: nat)
    requires FailsFirst(config, visits, variables, i) && FailsFirst(config, visits, variables, k)
    ensures i == k
  {
    hide VisitError;
  }

  /** The first failure is one of depth iff the first failing visit is too deep. */
  lemma DepthFailureIsFirst(config: RuntimeConfig, visits: seq<Visit>, variables: Contents)
    ensures var failure := FirstFailure(config, visits, variables);
            failure.Some? && failure.value.NestingLimitExceeded? <==>
            exists k | 0 <= k < |visits| ::
              && FailsFirst(config, visits, variables, k)
              && (LevelExceeds(config, visits[k]) || Overflows(config, visits[k], variables))
  {
    hide VisitError;
    hide LevelExceeds;
    hide Overflows;
    var k := FailureIsFirst(config, visits, variables);
    if k < |visits| {
      DepthFailureMeaning(config, visits[k], variables);
      forall i | 0 <= i < |visits| && FailsFirst(config, visits, variables, i) ensures i == k {
        FirstIsUnique(config, visits, variables, i, k);
      }
    }
  }

  predicate LevelsWithin(visits: seq<Visit>, limit: nat) {
    forall k | 0 <= k < |visits| && visits[k].Level? :: visits[k].depth <= limit
  }

  predicate NotTooDeep<T>(r: Result<T, RuntimeError>) {
    r.Err? ==> !r.error.NestingLimitExceeded?
  }

  lemma PlaceholderNotTooDeep(
    config: RuntimeConfig, name: string, variables: Contents, location: ResolutionLocation)
    ensures NotTooDeep(PlaceholderText(config, name, variables, location))
  {
  }

  lemma {:induction false} TextNotTooDeep(
    config: RuntimeConfig, raw: string, t: Template, cursor: nat, variables: Contents, location: ResolutionLocation,
    output: string)
    ensures NotTooDeep(Substitute(config, raw, t, cursor, variables, location, output))
    decreases t
  {
    hide ByteLen;
    hide PlaceholderText;
    if t.Hole? {
      var before := PushBounded(config, output, Literal(raw, cursor, t.start), location);
      var text := PlaceholderText(config, Literal(raw, t.start + 2, t.end), variables, location);
      PlaceholderNotTooDeep(config, Literal(raw, t.start + 2, t.end), variables, location);
      if before.Ok? && text.Ok? {
        var after := PushBounded(config, before.value, text.value, location);
        if after.Ok? {
          TextNotTooDeep(config, raw, t.next, t.end + 1, variables, location, after.value);
        }
      }
    }
  }

  /** The deepest container of a request's literals, all of which start at depth zero. */
  function RequestHeight(request: HttpRequestSpec): nat {
    Max(Max(EntriesHeight(request.headers), EntriesHeight(request.query)),
        match request.body
        case Some(JsonRequest(value)) => ValueHeight(value)
        case Some(FormRequest(fields)) => EntriesHeight(fields)
        case _ => 0)
  }

  function ExpectationHeight(expectation: ResponseExpectation): nat {
    if expectation.body.Some? && expectation.body.value.JsonAssertion? then
      AssertionHeight(expectation.body.value.shape)
    else 0
  }

  lemma {:induction false} ValueLevels(
    value: Value, location: ResolutionLocation, allowStructured: bool, depth: nat, limit: nat)
    requires depth + ValueHeight(value) <= limit
    ensures LevelsWithin(ValueVisits(value, location, allowStructured, depth), limit)
    decreases value
  {
    match value
    case ArrayValue(items) => ItemsLevels(items, location, allowStructured, depth + 1, limit);
    case ObjectValue(fields) => EntriesLevels(fields, location, allowStructured, depth + 1, limit);
    case _ =>
  }

  lemma {:induction false} ItemsLevels(
    items: seq<Value>, location: ResolutionLocation, allowStructured: bool, depth: nat, limit: nat)
    requires items == [] || depth + ValuesHeight(items) <= limit
    ensures LevelsWithin(ItemsVisits(items, location, allowStructured, depth), limit)
    decreases items
  {
    if items != [] {
      ValueLevels(items[0], location, allowStructured, depth, limit);
      ItemsLevels(items[1..], location, allowStructured, depth, limit);
    }
  }

  lemma {:induction false} EntriesLevels(
    entries: Entries<Value>, location: ResolutionLocation, allowStructured: bool, depth: nat, limit: nat)
    requires entries == [] || depth + EntriesHeight(entries) <= limit
    ensures LevelsWithin(EntriesVisits(entries, location, allowStructured, depth), limit)
    decreases entries
  {
    if entries != [] {
      EntryLevels(entries[0], location, allowStructured, depth, limit);
      EntriesLevels(entries[1..], location, allowStructured, depth, limit);
    }
  }

  lemma {:induction false} EntryLevels(
    entry: (string, Value), location: ResolutionLocation, allowStructured: bool, depth: nat, limit: nat)
    requires depth + EntryHeight(entry) <= limit
    ensures LevelsWithin(EntryVisits(entry, location, allowStructured, depth), limit)
    decreases entry
  {
    ValueLevels(entry.1, location, allowStructured, depth, limit);
  }

  lemma {:induction false} ObjectLevels(a: ObjectAssertion, depth: nat, limit: nat)
    requires depth + AssertionHeight(a) <= limit
    ensures LevelsWithin(ObjectVisits(a, depth), limit)
    decreases a, 1, 0
  {
    FieldsLevels(a, 0, depth + 1, limit);
  }

  lemma {:induction false} FieldsLevels(a: ObjectAssertion, i: nat, depth: nat, limit: nat)
    requires i <= |a.fields| && depth + FieldsHeightFrom(a, i) <= limit
    ensures LevelsWithin(FieldsVisitsFrom(a, i, depth), limit)
    decreases a, 0, |a.fields| - i
  {
    if i < |a.fields| {
      FieldLevels(a.fields[i].1, depth, limit);
      FieldsLevels(a, i + 1, depth, limit);
    }
  }

  lemma {:induction false} FieldLevels(field: FieldAssertion, depth: nat, limit: nat)
    requires depth + FieldAssertionHeight(field) <= limit
    ensures LevelsWithin(FieldVisits(field, depth), limit)
    decreases field, 2, 0
  {
    if field.expectedValue.Some? {
      ValueLevels(field.expectedValue.value, ResolutionLocation.ExpectedJson, true, depth, limit);
    }
    if field.nested.Some? {
      ObjectLevels(field.nested.value, depth, limit);
    }
  }

  lemma {:induction false} HeadersLevels(headers: Entries<HeaderAssertion>, limit: nat)
    ensures LevelsWithin(HeadersVisits(headers), limit)
  {
    if headers != [] {
      HeadersLevels(headers[1..], limit);
    }
  }

  lemma RequestLevels(request: HttpRequestSpec, limit: nat)
    requires RequestHeight(request) <= limit
    ensures LevelsWithin(RequestVisits(request), limit)
  {
    EntriesLevels(request.headers, RequestHeader, false, 0, limit);
    EntriesLevels(request.query, QueryParameter, false, 0, limit);
    if request.body.Some? {
      match request.body.value
      case JsonRequest(value) => ValueLevels(value, JsonRequestBody, true, 0, limit);
      case FormRequest(fields) => EntriesLevels(fields, FormField, false, 0, limit);
      case _ =>
    }
  }

  lemma ExpectationLevels(expectation: ResponseExpectation, limit: nat)
    requires ExpectationHeight(expectation) <= limit
    ensures LevelsWithin(ExpectationVisits(expectation), limit)
  {
    HeadersLevels(expectation.headers, limit);
    if expectation.body.Some? && expectation.body.value.JsonAssertion? {
      ObjectLevels(expectation.body.value.shape, 0, limit);
    }
  }

  /** Some visit is the first to fail, and it substitutes a structured value that is too deep where it stands. */
  ghost predicate OverflowsFirst(config: RuntimeConfig, visits: seq<Visit>, variables: Contents) {
    exists k | 0 <= k < |visits| :: FailsFirst(config, visits, variables, k) && Overflows(config, visits[k], variables)
  }

  /**
   * A request whose literals are within the limit exceeds it iff the first thing to fail, in source order, is an exact
   * placeholder at some depth d that names a structured variable whose own depth does not fit below d.
   */
  lemma RequestNotTooDeep(config: RuntimeConfig, request: HttpRequestSpec, variables: Contents)
    requires RequestHeight(request) <= config.maxResolutionDepth
    ensures TooDeep(ResolveRequest(config, request, variables))
            <==> OverflowsFirst(config, RequestVisits(request), variables)
  {
    hide FailsFirst;
    hide Overflows;
    hide FirstFailure;
    hide ResolveRequest;
    hide RequestVisits;
    RequestFailure(config, request, variables);
    RequestLevels(request, config.maxResolutionDepth);
    WithinLimitOnlyOverflows(config, RequestVisits(request), variables);
  }

  lemma WithinLimitOnlyOverflows(config: RuntimeConfig, visits: seq<Visit>, variables: Contents)
    requires LevelsWithin(visits, config.maxResolutionDepth)
    ensures var failure := FirstFailure(config, visits, variables);
            failure.Some? && failure.value.NestingLimitExceeded? <==> OverflowsFirst(config, visits, variables)
  {
    hide VisitError;
    hide Overflows;
    hide FirstFailure;
    DepthFailureIsFirst(config, visits, variables);
  }

  lemma ExpectationNotTooDeep(config: RuntimeConfig, expectation: ResponseExpectation, variables: Contents)
    requires ExpectationHeight(expectation) <= config.maxResolutionDepth
    ensures TooDeep(ResolveExpectation(config, expectation, variables))
            <==> OverflowsFirst(config, ExpectationVisits(expectation), variables)
  {
    hide FailsFirst;
    hide Overflows;
    hide FirstFailure;
    hide ResolveExpectation;
    hide ExpectationVisits;
    ExpectationFailure(config, expectation, variables);
    ExpectationLevels(expectation, config.maxResolutionDepth);
    WithinLimitOnlyOverflows(config, ExpectationVisits(expectation), variables);
  }
}
