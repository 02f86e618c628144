/** What resolution guarantees for closed text, for depths and for captures. */
module ResolverFacts {
  import opened Wrappers
  import opened Text
  import opened IndexMap
  import opened JsonValues
  import opened Domain
  import opened Template
  import opened Variables
  import opened RuntimeErrors
  import opened Expectation
  import opened Interpolation
  import opened Resolver
  import AssertionSpec
  import Matching
  import Capture

  /** The errors that depend on the sizes and types of values, not on which names are in scope. */
  predicate SizeOrType(error: RuntimeError) {
    || error.UnsupportedInterpolationType?
    || error.InterpolatedValueTooLarge?
    || error.NestingLimitExceeded?
    || error.NonFiniteNumber?
  }

  predicate Settled<T>(r: Result<T, RuntimeError>) {
    r.Err? ==> SizeOrType(r.error)
  }

  // ---- names are always found ----

  ghost predicate ValueClosed(value: Value, scope: set<string>) {
    match value
    case StringValue(raw) => Closed(raw, scope)
    case ArrayValue(items) => forall i | 0 <= i < |items| :: ValueClosed(items[i], scope)
    case ObjectValue(fields) => forall i | 0 <= i < |fields| :: ValueClosed(fields[i].1, scope)
    case _ => true
  }

  ghost predicate EntriesClosed(entries: Entries<Value>, scope: set<string>) {
    forall i | 0 <= i < |entries| :: ValueClosed(entries[i].1, scope)
  }

  ghost predicate ObjectClosed(a: ObjectAssertion, scope: set<string>)
    decreases a
  {
    forall i | 0 <= i < |a.fields| :: FieldClosed(a.fields[i].1, scope)
  }

  ghost predicate FieldClosed(field: FieldAssertion, scope: set<string>)
    decreases field
  {
    && (field.expectedValue.Some? ==> ValueClosed(field.expectedValue.value, scope))
    && (field.nested.Some? ==> ObjectClosed(field.nested.value, scope))
  }

  ghost predicate HeaderClosed(header: HeaderAssertion, scope: set<string>) {
    header.Exists? || Closed(header.raw, scope)
  }

  ghost predicate BodyClosed(body: BodyAssertion, scope: set<string>) {
    match body
    case EmptyAssertion => true
    case TextBodyAssertion(text) => Closed(text.raw, scope)
    case JsonAssertion(shape) => ObjectClosed(shape, scope)
  }

  ghost predicate ExpectationClosed(expectation: ResponseExpectation, scope: set<string>) {
    && (forall i | 0 <= i < |expectation.headers| :: HeaderClosed(expectation.headers[i].1, scope))
    && (expectation.body.Some? ==> BodyClosed(expectation.body.value, scope))
  }

  ghost predicate RequestBodyClosed(body: RequestBody, scope: set<string>) {
    match body
    case JsonRequest(value) => ValueClosed(value, scope)
    case TextRequest(raw) => Closed(raw, scope)
    case FormRequest(fields) => EntriesClosed(fields, scope)
    case BinaryRequest(_) => true
  }

  ghost predicate RequestClosed(request: HttpRequestSpec, scope: set<string>) {
    && Closed(request.path, scope)
    && EntriesClosed(request.headers, scope)
    && EntriesClosed(request.query, scope)
    && (request.body.Some? ==> RequestBodyClosed(request.body.value, scope))
  }

  lemma LookupSettles(config: RuntimeConfig, name: string, variables: Contents, location: ResolutionLocation)
    requires ValidVariableName(name) && name in Keys(variables)
    ensures Settled(Lookup(config, name, variables, location))
    ensures Settled(PlaceholderText(config, name, variables, location))
  {
  }

  lemma {:induction false} SubstituteSettles(
    config: RuntimeConfig, raw: string, t: Template, cursor: nat, variables: Contents, location: ResolutionLocation,
    output: string)
    requires ClosedTemplate(raw, t, Keys(variables))
    ensures Settled(Substitute(config, raw, t, cursor, variables, location, output))
    decreases t
  {
    hide ByteLen;
    hide PlaceholderText;
    hide Literal;
    hide ValidVariableName;
    if t.Hole? {
      var name := Literal(raw, t.start + 2, t.end);
      LookupSettles(config, name, variables, location);
      var before := PushBounded(config, output, Literal(raw, cursor, t.start), location);
      var text := PlaceholderText(config, name, variables, location);
      if before.Ok? && text.Ok? {
        var after := PushBounded(config, before.value, text.value, location);
        if after.Ok? {
          SubstituteSettles(config, raw, t.next, t.end + 1, variables, location, after.value);
        }
      }
    }
  }

  lemma ClosedTextSettles(config: RuntimeConfig, raw: string, variables: Contents, location: ResolutionLocation)
    requires Closed(raw, Keys(variables))
    ensures Settled(Interpolated(config, raw, variables, location))
    ensures Settled(StructuredPlaceholder(config, raw, variables, location))
  {
    ClosedMeaning(raw, Keys(variables));
    SubstituteSettles(config, raw, Split(raw, 0), 0, variables, location, "");
    ExactPlaceholderMeaning(raw);
    if ExactPlaceholder(raw).Some? {
      LookupSettles(config, ExactPlaceholder(raw).value, variables, location);
    }
  }

  lemma {:induction false} ValueSettles(
    config: RuntimeConfig, value: Value, variables: Contents, location: ResolutionLocation, allowStructured: bool,
    depth: nat)
    requires ValueClosed(value, Keys(variables))
    ensures Settled(ResolveValue(config, value, variables, location, allowStructured, depth))
    decreases value
  {
    match value
    case StringValue(raw) =>
      ClosedTextSettles(config, raw, variables, location);
      var structured := StructuredPlaceholder(config, raw, variables, location);
      if structured.Ok? && structured.value.Some? {
        JsonToResolvedIsExact(config, structured.value.value, depth);
      }
    case ArrayValue(items) => ItemsSettle(config, items, variables, location, allowStructured, depth + 1);
    case ObjectValue(fields) => EntriesSettle(config, fields, variables, location, allowStructured, depth + 1);
    case _ =>
  }

  lemma {:induction false} ItemsSettle(
    config: RuntimeConfig, items: seq<Value>, variables: Contents, location: ResolutionLocation, allowStructured: bool,
    depth: nat)
    requires forall i | 0 <= i < |items| :: ValueClosed(items[i], Keys(variables))
    ensures Settled(ResolveItems(config, items, variables, location, allowStructured, depth))
    decreases items
  {
    if items != [] {
      ValueSettles(config, items[0], variables, location, allowStructured, depth);
      ItemsSettle(config, items[1..], variables, location, allowStructured, depth);
    }
  }

  lemma {:induction false} EntriesSettle(
    config: RuntimeConfig, entries: Entries<Value>, variables: Contents, location: ResolutionLocation,
    allowStructured: bool, depth: nat)
    requires EntriesClosed(entries, Keys(variables))
    ensures Settled(ResolveEntries(config, entries, variables, location, allowStructured, depth))
    decreases entries
  {
    if entries != [] {
      EntrySettles(config, entries[0], variables, location, allowStructured, depth);
      EntriesSettle(config, entries[1..], variables, location, allowStructured, depth);
    }
  }

  lemma {:induction false} EntrySettles(
    config: RuntimeConfig, entry: (string, Value), variables: Contents, location: ResolutionLocation,
    allowStructured: bool, depth: nat)
    requires ValueClosed(entry.1, Keys(variables))
    ensures Settled(ResolveEntry(config, entry, variables, location, allowStructured, depth))
    decreases entry
  {
    ValueSettles(config, entry.1, variables, location, allowStructured, depth);
  }

  lemma {:induction false} JsonSettles(
    config: RuntimeConfig, value: Value, variables: Contents, location: ResolutionLocation, depth: nat)
    requires ValueClosed(value, Keys(variables))
    ensures Settled(ResolveJson(config, value, variables, location, depth))
    decreases value
  {
    match value
    case StringValue(raw) =>
      ClosedTextSettles(config, raw, variables, location);
      var structured := StructuredPlaceholder(config, raw, variables, location);
      if structured.Ok? && structured.value.Some? {
        CloneIsExact(config, structured.value.value, depth);
      }
    case ArrayValue(items) => JsonItemsSettle(config, items, variables, location, depth + 1);
    case ObjectValue(fields) => JsonEntriesSettle(config, fields, variables, location, depth + 1);
    case _ =>
  }

  lemma {:induction false} JsonItemsSettle(
    config: RuntimeConfig, items: seq<Value>, variables: Contents, location: ResolutionLocation, depth: nat)
    requires forall i | 0 <= i < |items| :: ValueClosed(items[i], Keys(variables))
    ensures Settled(ResolveJsonItems(config, items, variables, location, depth))
    decreases items
  {
    if items != [] {
      JsonSettles(config, items[0], variables, location, depth);
      JsonItemsSettle(config, items[1..], variables, location, depth);
    }
  }

  lemma {:induction false} JsonEntriesSettle(
    config: RuntimeConfig, entries: Entries<Value>, variables: Contents, location: ResolutionLocation, depth: nat)
    requires EntriesClosed(entries, Keys(variables))
    ensures Settled(ResolveJsonEntries(config, entries, variables, location, depth))
    decreases entries
  {
    if entries != [] {
      JsonEntrySettles(config, entries[0], variables, location, depth);
      JsonEntriesSettle(config, entries[1..], variables, location, depth);
    }
  }

  lemma {:induction false} JsonEntrySettles(
    config: RuntimeConfig, entry: (string, Value), variables: Contents, location: ResolutionLocation, depth: nat)
    requires ValueClosed(entry.1, Keys(variables))
    ensures Settled(ResolveJsonEntry(config, entry, variables, location, depth))
    decreases entry
  {
    JsonSettles(config, entry.1, variables, location, depth);
  }

  lemma {:induction false} ObjectSettles(config: RuntimeConfig, a: ObjectAssertion, variables: Contents, depth: nat)
    requires ObjectClosed(a, Keys(variables))
    ensures Settled(ResolveObject(config, a, variables, depth))
    decreases a, 1, 0
  {
    FieldsSettle(config, a, 0, variables, depth + 1);
  }

  lemma {:induction false} FieldsSettle(
    config: RuntimeConfig, a: ObjectAssertion, i: nat, variables: Contents, depth: nat)
    requires i <= |a.fields| && ObjectClosed(a, Keys(variables))
    ensures Settled(ResolveFieldsFrom(config, a, i, variables, depth))
    decreases a, 0, |a.fields| - i
  {
    if i < |a.fields| {
      FieldSettles(config, a.fields[i].1, variables, depth);
      FieldsSettle(config, a, i + 1, variables, depth);
    }
  }

  lemma {:induction false} FieldSettles(config: RuntimeConfig, field: FieldAssertion, variables: Contents, depth: nat)
    requires FieldClosed(field, Keys(variables))
    ensures Settled(ResolveField(config, field, variables, depth))
    decreases field, 2, 0
  {
    if field.expectedValue.Some? {
      JsonSettles(config, field.expectedValue.value, variables, ResolutionLocation.ExpectedJson, depth);
    }
    if field.nested.Some? {
      ObjectSettles(config, field.nested.value, variables, depth);
    }
  }

  lemma {:induction false} HeadersSettle(
    config: RuntimeConfig, headers: Entries<HeaderAssertion>, variables: Contents)
    requires forall i | 0 <= i < |headers| :: HeaderClosed(headers[i].1, Keys(variables))
    ensures Settled(ResolveHeaders(config, headers, variables))
  {
    if headers != [] {
      if !headers[0].1.Exists? {
        ClosedTextSettles(config, headers[0].1.raw, variables, ResolutionLocation.ExpectedHeader);
      }
      HeadersSettle(config, headers[1..], variables);
    }
  }

  /** Closed requests and expectations never fail for want of a name: no scope error, whatever the values are. */
  lemma ClosedTestSettles(
    config: RuntimeConfig, request: HttpRequestSpec, expectation: ResponseExpectation, variables: Contents)
    requires RequestClosed(request, Keys(variables)) && ExpectationClosed(expectation, Keys(variables))
    ensures Settled(ResolveRequest(config, request, variables))
    ensures Settled(ResolveExpectation(config, expectation, variables))
  {
    RequestSettles(config, request, variables);
    HeadersSettle(config, expectation.headers, variables);
    if expectation.body.Some? {
      match expectation.body.value
      case EmptyAssertion =>
      case TextBodyAssertion(text) =>
        ClosedTextSettles(config, text.raw, variables, ResolutionLocation.ExpectedText);
      case JsonAssertion(shape) => ObjectSettles(config, shape, variables, 0);
    }
  }

  lemma RequestSettles(config: RuntimeConfig, request: HttpRequestSpec, variables: Contents)
    requires RequestClosed(request, Keys(variables))
    ensures Settled(ResolveRequest(config, request, variables))
  {
    ClosedTextSettles(config, request.path, variables, RequestPath);
    EntriesSettle(config, request.headers, variables, RequestHeader, false, 0);
    EntriesSettle(config, request.query, variables, QueryParameter, false, 0);
    if request.body.Some? {
      match request.body.value
      case JsonRequest(value) => ValueSettles(config, value, variables, JsonRequestBody, true, 0);
      case TextRequest(raw) => ClosedTextSettles(config, raw, variables, TextRequestBody);
      case FormRequest(fields) => EntriesSettle(config, fields, variables, FormField, false, 0);
      case BinaryRequest(_) =>
    }
  }

  // ---- depths ----

  /** A substituted value passes iff its deepest node is within the limit; otherwise the depth is the only complaint. */
  lemma {:induction false} CloneIsExact(config: RuntimeConfig, value: Json, depth: nat)
    ensures var r := CloneBounded(config, value, depth);
            && (r.Ok? <==> depth + NodeDepth(value) <= config.maxResolutionDepth)
            && (r.Err? ==> r.error == NestingLimitExceeded(config.maxResolutionDepth))
            && (r.Ok? && Canonical(value) ==> r.value == value)
    decreases value
  {
    match value
    case Arr(items) => CloneItemsIsExact(config, items, depth + 1);
    case Obj(fields) =>
      CloneFieldsIsExact(config, fields, depth + 1);
      if Sorted(fields) {
        CollectSorted([], fields);
        assert [] + fields == fields;
      }
    case _ =>
  }

  lemma {:induction false} CloneItemsIsExact(config: RuntimeConfig, items: seq<Json>, depth: nat)
    ensures var r := CloneItems(config, items, depth);
            && (r.Ok? <==> items == [] || depth + ItemsNodeDepth(items) <= config.maxResolutionDepth)
            && (r.Err? ==> r.error == NestingLimitExceeded(config.maxResolutionDepth))
            && (r.Ok? && (forall i | 0 <= i < |items| :: Canonical(items[i])) ==> r.value == items)
    decreases items
  {
    if items != [] {
      CloneIsExact(config, items[0], depth);
      CloneItemsIsExact(config, items[1..], depth);
      assert items == [items[0]] + items[1..];
    }
  }

  lemma {:induction false} CloneFieldsIsExact(config: RuntimeConfig, fields: Entries<Json>, depth: nat)
    ensures var r := CloneFields(config, fields, depth);
            && (r.Ok? <==> fields == [] || depth + FieldsNodeDepth(fields) <= config.maxResolutionDepth)
            && (r.Err? ==> r.error == NestingLimitExceeded(config.maxResolutionDepth))
            && (r.Ok? && (forall i | 0 <= i < |fields| :: Canonical(fields[i].1)) ==> r.value == fields)
    decreases fields
  {
    if fields != [] {
      CloneFieldIsExact(config, fields[0], depth);
      CloneFieldsIsExact(config, fields[1..], depth);
      assert fields == [(fields[0].0, fields[0].1)] + fields[1..];
    }
  }

  lemma {:induction false} CloneFieldIsExact(config: RuntimeConfig, field: (string, Json), depth: nat)
    ensures var r := CloneField(config, field, depth);
            && (r.Ok? <==> depth + FieldNodeDepth(field) <= config.maxResolutionDepth)
            && (r.Err? ==> r.error == NestingLimitExceeded(config.maxResolutionDepth))
            && (r.Ok? && Canonical(field.1) ==> r.value == field.1)
    decreases field
  {
    CloneIsExact(config, field.1, depth);
  }

  /** Collecting members that are already in order keeps them as they are. */
  lemma {:induction false} CollectSorted(fields: Entries<Json>, entries: Entries<Json>)
    requires Sorted(fields + entries)
    ensures Collect(fields, entries) == fields + entries
    decreases |entries|
  {
    if entries == [] {
      assert fields + entries == fields;
    } else {
      var (key, value) := entries[0];
      assert forall i | 0 <= i < |fields| :: Less(fields[i].0, key) by {
        assert (fields + entries)[|fields|] == entries[0];
        assert forall i | 0 <= i < |fields| :: (fields + entries)[i] == fields[i];
      }
      InsertLast(fields, key, value);
      assert entries == [(key, value)] + entries[1..];
      assert fields + [(key, value)] + entries[1..] == fields + entries;
      CollectSorted(fields + [(key, value)], entries[1..]);
    }
  }

  lemma {:induction false} InsertLast(fields: Entries<Json>, key: string, value: Json)
    requires forall i | 0 <= i < |fields| :: Less(fields[i].0, key)
    ensures SortedInsert(fields, key, value) == fields + [(key, value)]
  {
    if fields != [] {
      LessTrichotomy(fields[0].0, key);
      InsertLast(fields[1..], key, value);
      assert fields == [fields[0]] + fields[1..];
    }
  }

  /** The JSON a request value stands for. */
  function JsonOf(value: ResolvedValue): Json
    decreases value
  {
    match value
    case StringResolved(text) => Str(text)
    case IntegerResolved(n) => Num(Int(n))
    case UnsignedResolved(n) => Num(Int(n))
    case NumberResolved(r) => Num(Float(r))
    case BooleanResolved(b) => Bool(b)
    case NullResolved => Null
    case ArrayResolved(items) => Arr(ItemsOf(items))
    case ObjectResolved(fields) => Obj(FieldsOf(fields))
  }

  function ItemsOf(items: seq<ResolvedValue>): seq<Json>
    decreases items
  {
    if items == [] then [] else [JsonOf(items[0])] + ItemsOf(items[1..])
  }

  function FieldsOf(fields: Entries<ResolvedValue>): Entries<Json>
    decreases fields
  {
    if fields == [] then [] else [(fields[0].0, FieldOf(fields[0]))] + FieldsOf(fields[1..])
  }

  function FieldOf(field: (string, ResolvedValue)): Json
    decreases field
  {
    JsonOf(field.1)
  }

  /** The same for request values; one that passes stands for the JSON it was made from, members in order. */
  lemma {:induction false} JsonToResolvedIsExact(config: RuntimeConfig, value: Json, depth: nat)
    ensures var r := JsonToResolved(config, value, depth);
            && (r.Ok? <==> depth + NodeDepth(value) <= config.maxResolutionDepth)
            && (r.Err? ==> r.error == NestingLimitExceeded(config.maxResolutionDepth))
            && (r.Ok? ==> JsonOf(r.value) == value)
    decreases value
  {
    match value
    case Arr(items) => JsonItemsToResolvedIsExact(config, items, depth + 1);
    case Obj(fields) => JsonFieldsToResolvedIsExact(config, fields, depth + 1);
    case _ =>
  }

  lemma {:induction false} JsonItemsToResolvedIsExact(config: RuntimeConfig, items: seq<Json>, depth: nat)
    ensures var r := JsonItemsToResolved(config, items, depth);
            && (r.Ok? <==> items == [] || depth + ItemsNodeDepth(items) <= config.maxResolutionDepth)
            && (r.Err? ==> r.error == NestingLimitExceeded(config.maxResolutionDepth))
            && (r.Ok? ==> ItemsOf(r.value) == items)
    decreases items
  {
    if items != [] {
      JsonToResolvedIsExact(config, items[0], depth);
      JsonItemsToResolvedIsExact(config, items[1..], depth);
    }
  }

  lemma {:induction false} JsonFieldsToResolvedIsExact(config: RuntimeConfig, fields: Entries<Json>, depth: nat)
    ensures var r := JsonFieldsToResolved(config, fields, depth);
            && (r.Ok? <==> fields == [] || depth + FieldsNodeDepth(fields) <= config.maxResolutionDepth)
            && (r.Err? ==> r.error == NestingLimitExceeded(config.maxResolutionDepth))
            && (r.Ok? ==> FieldsOf(r.value) == fields)
    decreases fields
  {
    if fields != [] {
      JsonFieldToResolvedIsExact(config, fields[0], depth);
      JsonFieldsToResolvedIsExact(config, fields[1..], depth);
    }
  }

  lemma {:induction false} JsonFieldToResolvedIsExact(config: RuntimeConfig, field: (string, Json), depth: nat)
    ensures var r := JsonFieldToResolved(config, field, depth);
            && (r.Ok? <==> depth + FieldNodeDepth(field) <= config.maxResolutionDepth)
            && (r.Err? ==> r.error == NestingLimitExceeded(config.maxResolutionDepth))
            && (r.Ok? ==> JsonOf(r.value) == field.1)
    decreases field
  {
    JsonToResolvedIsExact(config, field.1, depth);
  }
}
