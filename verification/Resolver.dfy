/**
 * Resolution of values, requests and expectations against one scope, crates/rettp-runtime/src/resolver.rs and the
 * recursive part of crates/rettp-runtime/src/interpolation.rs.
 */
module Resolver {
  import opened Wrappers
  import opened IndexMap
  import opened JsonValues
  import opened Domain
  import opened Template
  import opened Variables
  import opened RuntimeErrors
  import opened Expectation
  import opened Interpolation

  function EnterDepth(config: RuntimeConfig, depth: nat): Result<(), RuntimeError> {
    if depth > config.maxResolutionDepth then Err(NestingLimitExceeded(config.maxResolutionDepth)) else Ok(())
  }

  /** `exact_placeholder`, restricted to the case both callers use: the variable holds an object or array. */
  function StructuredPlaceholder(config: RuntimeConfig, raw: string, variables: Contents, location: ResolutionLocation)
    : Result<Option<Json>, RuntimeError>
  {
    match ExactPlaceholder(raw)
    case None => Ok(None)
    case Some(name) =>
      var content :- Lookup(config, name, variables, location);
      if content.IsStructured() then Ok(Some(content.json)) else Ok(None)
  }

  // ---- requests ----

  function ResolveValue(
    config: RuntimeConfig, value: Value, variables: Contents, location: ResolutionLocation, allowStructured: bool,
    depth: nat)
    : Result<ResolvedValue, RuntimeError>
    decreases value
  {
    var _ :- EnterDepth(config, depth);
    match value
    case StringValue(raw) =>
      var structured :- if allowStructured then StructuredPlaceholder(config, raw, variables, location) else Ok(None);
      if structured.Some? then JsonToResolved(config, structured.value, depth)
      else
        var text :- Interpolated(config, raw, variables, location);
        Ok(StringResolved(text))
    case IntegerValue(n) => Ok(IntegerResolved(n))
    case NumberValue(Finite(r)) => Ok(NumberResolved(r))
    case NumberValue(NonFinite) => Err(NonFiniteNumber)
    case BooleanValue(b) => Ok(BooleanResolved(b))
    case NullValue => Ok(NullResolved)
    case ArrayValue(items) =>
      var resolved :- ResolveItems(config, items, variables, location, allowStructured, depth + 1);
      Ok(ArrayResolved(resolved))
    case ObjectValue(fields) =>
      var resolved :- ResolveEntries(config, fields, variables, location, allowStructured, depth + 1);
      Ok(ObjectResolved(resolved))
  }

  function ResolveItems(
    config: RuntimeConfig, items: seq<Value>, variables: Contents, location: ResolutionLocation, allowStructured: bool,
    depth: nat)
    : Result<seq<ResolvedValue>, RuntimeError>
    decreases items
  {
    if items == [] then Ok([])
    else
      var first :- ResolveValue(config, items[0], variables, location, allowStructured, depth);
      var rest :- ResolveItems(config, items[1..], variables, location, allowStructured, depth);
      Ok([first] + rest)
  }

  function ResolveEntries(
    config: RuntimeConfig, entries: Entries<Value>, variables: Contents, location: ResolutionLocation,
    allowStructured: bool, depth: nat)
    : Result<Entries<ResolvedValue>, RuntimeError>
    decreases entries
  {
    if entries == [] then Ok([])
    else
      var first :- ResolveEntry(config, entries[0], variables, location, allowStructured, depth);
      var rest :- ResolveEntries(config, entries[1..], variables, location, allowStructured, depth);
      Ok([(entries[0].0, first)] + rest)
  }

  function ResolveEntry(
    config: RuntimeConfig, entry: (string, Value), variables: Contents, location: ResolutionLocation,
    allowStructured: bool, depth: nat)
    : Result<ResolvedValue, RuntimeError>
    decreases entry
  {
    ResolveValue(config, entry.1, variables, location, allowStructured, depth)
  }

  function JsonToResolved(config: RuntimeConfig, value: Json, depth: nat): Result<ResolvedValue, RuntimeError>
    decreases value
  {
    var _ :- EnterDepth(config, depth);
    match value
    case Null => Ok(NullResolved)
    case Bool(b) => Ok(BooleanResolved(b))
    case Num(Int(n)) => if n < 0x8000_0000_0000_0000 then Ok(IntegerResolved(n)) else Ok(UnsignedResolved(n))
    case Num(Float(r)) => Ok(NumberResolved(r))
    case Str(text) => Ok(StringResolved(text))
    case Arr(items) =>
      var resolved :- JsonItemsToResolved(config, items, depth + 1);
      Ok(ArrayResolved(resolved))
    case Obj(fields) =>
      var resolved :- JsonFieldsToResolved(config, fields, depth + 1);
      Ok(ObjectResolved(resolved))
  }

  function JsonItemsToResolved(config: RuntimeConfig, items: seq<Json>, depth: nat)
    : Result<seq<ResolvedValue>, RuntimeError>
    decreases items
  {
    if items == [] then Ok([])
    else
      var first :- JsonToResolved(config, items[0], depth);
      var rest :- JsonItemsToResolved(config, items[1..], depth);
      Ok([first] + rest)
  }

  function JsonFieldsToResolved(config: RuntimeConfig, fields: Entries<Json>, depth: nat)
    : Result<Entries<ResolvedValue>, RuntimeError>
    decreases fields
  {
    if fields == [] then Ok([])
    else
      var first :- JsonFieldToResolved(config, fields[0], depth);
      var rest :- JsonFieldsToResolved(config, fields[1..], depth);
      Ok([(fields[0].0, first)] + rest)
  }

  function JsonFieldToResolved(config: RuntimeConfig, field: (string, Json), depth: nat)
    : Result<ResolvedValue, RuntimeError>
    decreases field
  {
    JsonToResolved(config, field.1, depth)
  }

  function ResolveRequestBody(config: RuntimeConfig, body: RequestBody, variables: Contents)
    : Result<ResolvedRequestBody, RuntimeError>
  {
    match body
    case JsonRequest(value) =>
      var resolved :- ResolveValue(config, value, variables, JsonRequestBody, true, 0);
      Ok(JsonResolved(resolved))
    case TextRequest(raw) =>
      var text :- Interpolated(config, raw, variables, TextRequestBody);
      Ok(TextResolved(text))
    case FormRequest(fields) =>
      var resolved :- ResolveEntries(config, fields, variables, FormField, false, 0);
      Ok(FormResolved(resolved))
    case BinaryRequest(bytes) => Ok(BinaryResolved(bytes))
  }

  function ResolveRequest(config: RuntimeConfig, request: HttpRequestSpec, variables: Contents)
    : Result<ResolvedHttpRequest, RuntimeError>
  {
    var path :- Interpolated(config, request.path, variables, RequestPath);
    var headers :- ResolveEntries(config, request.headers, variables, RequestHeader, false, 0);
    var query :- ResolveEntries(config, request.query, variables, QueryParameter, false, 0);
    if request.body.None? then Ok(ResolvedHttpRequest(request.verb, path, headers, query, None, request.timeoutMs))
    else
      var body :- ResolveRequestBody(config, request.body.value, variables);
      Ok(ResolvedHttpRequest(request.verb, path, headers, query, Some(body), request.timeoutMs))
  }

  // ---- expectations ----

  function ResolveJson(
    config: RuntimeConfig, value: Value, variables: Contents, location: ResolutionLocation, depth: nat)
    : Result<Json, RuntimeError>
    decreases value
  {
    var _ :- EnterDepth(config, depth);
    match value
    case StringValue(raw) =>
      var structured :- StructuredPlaceholder(config, raw, variables, location);
      if structured.Some? then CloneBounded(config, structured.value, depth)
      else
        var text :- Interpolated(config, raw, variables, location);
        Ok(Str(text))
    case IntegerValue(n) => Ok(Num(Int(n)))
    case NumberValue(Finite(r)) => Ok(Num(Float(r)))
    case NumberValue(NonFinite) => Err(NonFiniteNumber)
    case BooleanValue(b) => Ok(Bool(b))
    case NullValue => Ok(Null)
    case ArrayValue(items) =>
      var resolved :- ResolveJsonItems(config, items, variables, location, depth + 1);
      Ok(Arr(resolved))
    case ObjectValue(fields) =>
      var resolved :- ResolveJsonEntries(config, fields, variables, location, depth + 1);
      Ok(Obj(Collect([], resolved)))
  }

  function ResolveJsonItems(
    config: RuntimeConfig, items: seq<Value>, variables: Contents, location: ResolutionLocation, depth: nat)
    : Result<seq<Json>, RuntimeError>
    decreases items
  {
    if items == [] then Ok([])
    else
      var first :- ResolveJson(config, items[0], variables, location, depth);
      var rest :- ResolveJsonItems(config, items[1..], variables, location, depth);
      Ok([first] + rest)
  }

  function ResolveJsonEntries(
    config: RuntimeConfig, entries: Entries<Value>, variables: Contents, location: ResolutionLocation, depth: nat)
    : Result<Entries<Json>, RuntimeError>
    decreases entries
  {
    if entries == [] then Ok([])
    else
      var first :- ResolveJsonEntry(config, entries[0], variables, location, depth);
      var rest :- ResolveJsonEntries(config, entries[1..], variables, location, depth);
      Ok([(entries[0].0, first)] + rest)
  }

  function ResolveJsonEntry(
    config: RuntimeConfig, entry: (string, Value), variables: Contents, location: ResolutionLocation, depth: nat)
    : Result<Json, RuntimeError>
    decreases entry
  {
    ResolveJson(config, entry.1, variables, location, depth)
  }

  function CloneBounded(config: RuntimeConfig, value: Json, depth: nat): Result<Json, RuntimeError>
    decreases value
  {
    var _ :- EnterDepth(config, depth);
    match value
    case Arr(items) =>
      var cloned :- CloneItems(config, items, depth + 1);
      Ok(Arr(cloned))
    case Obj(fields) =>
      var cloned :- CloneFields(config, fields, depth + 1);
      Ok(Obj(Collect([], cloned)))
    case _ => Ok(value)
  }

  function CloneItems(config: RuntimeConfig, items: seq<Json>, depth: nat): Result<seq<Json>, RuntimeError>
    decreases items
  {
    if items == [] then Ok([])
    else
      var first :- CloneBounded(config, items[0], depth);
      var rest :- CloneItems(config, items[1..], depth);
      Ok([first] + rest)
  }

  function CloneFields(config: RuntimeConfig, fields: Entries<Json>, depth: nat): Result<Entries<Json>, RuntimeError>
    decreases fields
  {
    if fields == [] then Ok([])
    else
      var first :- CloneField(config, fields[0], depth);
      var rest :- CloneFields(config, fields[1..], depth);
      Ok([(fields[0].0, first)] + rest)
  }

  function CloneField(config: RuntimeConfig, field: (string, Json), depth: nat): Result<Json, RuntimeError>
    decreases field
  {
    CloneBounded(config, field.1, depth)
  }

  function ResolveObject(config: RuntimeConfig, a: ObjectAssertion, variables: Contents, depth: nat)
    : Result<ResolvedObject, RuntimeError>
    decreases a, 1, 0
  {
    var _ :- EnterDepth(config, depth);
    var fields :- ResolveFieldsFrom(config, a, 0, variables, depth + 1);
    Ok(ResolvedObject(a.mode, fields))
  }

  function ResolveFieldsFrom(config: RuntimeConfig, a: ObjectAssertion, i: nat, variables: Contents, depth: nat)
    : Result<Entries<ResolvedField>, RuntimeError>
    requires i <= |a.fields|
    decreases a, 0, |a.fields| - i
  {
    if i == |a.fields| then Ok([])
    else
      var first :- ResolveField(config, a.fields[i].1, variables, depth);
      var rest :- ResolveFieldsFrom(config, a, i + 1, variables, depth);
      Ok([(a.fields[i].0, first)] + rest)
  }

  function ResolveField(config: RuntimeConfig, field: FieldAssertion, variables: Contents, depth: nat)
    : Result<ResolvedField, RuntimeError>
    decreases field, 2, 0
  {
    var _ :- EnterDepth(config, depth);
    var expectedValue :- if field.expectedValue.None? then Ok(None) else
      (match ResolveJson(config, field.expectedValue.value, variables, ExpectedJson, depth)
       case Ok(value) => Ok(Some(value))
       case Err(error) => Err(error));
    var nested :- if field.nested.None? then Ok(None) else
      (match ResolveObject(config, field.nested.value, variables, depth)
       case Ok(nested) => Ok(Some(nested))
       case Err(error) => Err(error));
    Ok(ResolvedField(field.fieldName, field.expectedType, expectedValue, nested, field.capture))
  }

  function ResolveHeader(config: RuntimeConfig, assertion: HeaderAssertion, variables: Contents)
    : Result<ResolvedHeader, RuntimeError>
  {
    match assertion
    case Exists => Ok(HeaderExists)
    case Exact(raw) =>
      var text :- Interpolated(config, raw, variables, ExpectedHeader);
      Ok(HeaderExact(text))
    case Contains(raw) =>
      var text :- Interpolated(config, raw, variables, ExpectedHeader);
      Ok(HeaderContains(text))
  }

  function ResolveHeaders(config: RuntimeConfig, headers: Entries<HeaderAssertion>, variables: Contents)
    : Result<Entries<ResolvedHeader>, RuntimeError>
  {
    if headers == [] then Ok([])
    else
      var first :- ResolveHeader(config, headers[0].1, variables);
      var rest :- ResolveHeaders(config, headers[1..], variables);
      Ok([(headers[0].0, first)] + rest)
  }

  function ResolveBodyAssertion(config: RuntimeConfig, body: BodyAssertion, variables: Contents)
    : Result<ResolvedBody, RuntimeError>
  {
    match body
    case EmptyAssertion => Ok(ExpectEmpty)
    case TextBodyAssertion(ExactText(raw)) =>
      var text :- Interpolated(config, raw, variables, RuntimeErrors.ResolutionLocation.ExpectedText);
      Ok(ExpectText(TextExact(text)))
    case TextBodyAssertion(ContainsText(raw)) =>
      var text :- Interpolated(config, raw, variables, RuntimeErrors.ResolutionLocation.ExpectedText);
      Ok(ExpectText(TextContains(text)))
    case JsonAssertion(shape) =>
      var resolved :- ResolveObject(config, shape, variables, 0);
      Ok(ExpectJson(resolved))
  }

  function ResolveExpectation(config: RuntimeConfig, expectation: ResponseExpectation, variables: Contents)
    : Result<ResolvedExpectation, RuntimeError>
  {
    var headers :- ResolveHeaders(config, expectation.headers, variables);
    if expectation.body.None? then Ok(ResolvedExpectation(expectation.status, headers, None))
    else
      var body :- ResolveBodyAssertion(config, expectation.body.value, variables);
      Ok(ResolvedExpectation(expectation.status, headers, Some(body)))
  }
}
