/**
 * What the assertion engine reports when nothing is ever cut off: every failure, in order.
 * Only the location and the kind of a failure are kept, not its wording.
 */
module AssertionSpec {
  import opened Wrappers
  import opened IndexMap
  import opened JsonValues
  import opened Numbers
  import opened Response
  import opened Expectation
  import Text

  datatype Segment = Key(name: string) | Index(i: nat)

  datatype Location = AtStatus | AtHeader(name: string) | AtBody(path: seq<Segment>)

  datatype FailureKind =
    | MissingField
    | TypeMismatch
    | ValueMismatch
    | UnexpectedField
    | StatusMismatch
    | HeaderMismatch
    | InvalidBody

  datatype Failure = Failure(at: Location, kind: FailureKind)

  predicate HasType(value: Json, expected: ExpectedType) {
    match expected
    case TString => value.Str?
    case TBoolean => value.Bool?
    case TInteger => value.Num? && IsInteger(value.num)
    case TNumber => value.Num?
    case TObject => value.Obj?
    case TArray => value.Arr?
    case TNull => value.Null?
  }

  predicate HeaderSatisfied(assertion: ResolvedHeader, values: Option<seq<Bytes>>) {
    match assertion
    case HeaderExists => values.Some? && values.value != []
    case HeaderExact(text) => values.Some? && values.value == [Utf8(text)]
    case HeaderContains(text) =>
      values.Some? && exists v | v in values.value :: v.Utf8? && Text.Contains(v.text, text)
  }

  predicate TextSatisfied(assertion: ResolvedText, actual: string) {
    match assertion
    case TextExact(text) => actual == text
    case TextContains(text) => Text.Contains(actual, text)
  }

  /** A nested number is compared loosely only when the expected one is not an integer. */
  predicate FlexibleNumber(expected: Json) {
    expected.Num? && !IsInteger(expected.num)
  }

  function ScalarFailures(expected: Json, actual: Json, path: seq<Segment>, flexible: bool): seq<Failure>
    requires !expected.IsContainer()
  {
    match expected
    case Num(number) =>
      if !actual.Num? then [Failure(AtBody(path), TypeMismatch)]
      else if !(flexible || !IsInteger(number) || IsInteger(actual.num)) then [Failure(AtBody(path), TypeMismatch)]
      else if !NumbersEqual(number, actual.num) then [Failure(AtBody(path), ValueMismatch)]
      else []
    case Str(text) =>
      if !actual.Str? then [Failure(AtBody(path), TypeMismatch)]
      else if actual.s != text then [Failure(AtBody(path), ValueMismatch)]
      else []
    case Bool(value) =>
      if !actual.Bool? then [Failure(AtBody(path), TypeMismatch)]
      else if actual.b != value then [Failure(AtBody(path), ValueMismatch)]
      else []
    case Null => if !actual.Null? then [Failure(AtBody(path), TypeMismatch)] else []
  }

  function CompareFailures(expected: Json, actual: Json, path: seq<Segment>, depth: nat, flexible: bool, limit: nat)
    : seq<Failure>
    decreases expected, 1, 0
  {
    match expected
    case Obj(_) =>
      if !actual.Obj? then [Failure(AtBody(path), TypeMismatch)]
      else if depth > limit then [Failure(AtBody(path), InvalidBody)]
      else CompareFieldsFrom(expected, 0, actual.fields, path, depth, limit)
    case Arr(_) =>
      if !actual.Arr? then [Failure(AtBody(path), TypeMismatch)]
      else if depth > limit then [Failure(AtBody(path), InvalidBody)]
      else
        LengthFailures(expected, actual, path) + CompareItemsFrom(expected, 0, actual.items, path, depth, limit)
    case _ => ScalarFailures(expected, actual, path, flexible)
  }

  function LengthFailures(expected: Json, actual: Json, path: seq<Segment>): seq<Failure>
    requires expected.Arr? && actual.Arr?
  {
    if |expected.items| != |actual.items| then [Failure(AtBody(path), ValueMismatch)] else []
  }

  /** Expected members from index `i` on. */
  function CompareFieldsFrom(
    expected: Json, i: nat, actual: Entries<Json>, path: seq<Segment>, depth: nat, limit: nat): seq<Failure>
    requires expected.Obj? && i <= |expected.fields|
    decreases expected, 0, |expected.fields| - i
  {
    if i == |expected.fields| then []
    else
      CompareMember(expected, i, actual, path, depth, limit)
      + CompareFieldsFrom(expected, i + 1, actual, path, depth, limit)
  }

  function CompareMember(
    expected: Json, i: nat, actual: Entries<Json>, path: seq<Segment>, depth: nat, limit: nat): seq<Failure>
    requires expected.Obj? && i < |expected.fields|
    decreases expected, 0, 0
  {
    var (key, value) := expected.fields[i];
    var found := Find(actual, key);
    if found.None? then [Failure(AtBody(path + [Key(key)]), MissingField)]
    else CompareFailures(expected.fields[i].1, found.value, path + [Key(key)], depth + 1, FlexibleNumber(value), limit)
  }

  /** Elements from index `i` on, as far as both arrays go. */
  function CompareItemsFrom(
    expected: Json, i: nat, actual: seq<Json>, path: seq<Segment>, depth: nat, limit: nat): seq<Failure>
    requires expected.Arr? && i <= |expected.items|
    decreases expected, 0, |expected.items| - i
  {
    if i == |expected.items| || i >= |actual| then []
    else
      CompareFailures(
        expected.items[i], actual[i], path + [Index(i)], depth + 1, FlexibleNumber(expected.items[i]), limit)
      + CompareItemsFrom(expected, i + 1, actual, path, depth, limit)
  }

  function ObjectFailures(a: ResolvedObject, actual: Entries<Json>, path: seq<Segment>, depth: nat, limit: nat)
    : seq<Failure>
    decreases a, 1, 0
  {
    if depth > limit then [Failure(AtBody(path), InvalidBody)]
    else
      FieldsFrom(a, 0, actual, path, depth, limit)
      + (if a.mode.MatchExact? then ExtrasFrom(a.fields, actual, 0, path) else [])
  }

  function FieldsFrom(a: ResolvedObject, i: nat, actual: Entries<Json>, path: seq<Segment>, depth: nat, limit: nat)
    : seq<Failure>
    requires i <= |a.fields|
    decreases a, 0, |a.fields| - i
  {
    if i == |a.fields| then []
    else
      DeclaredField(a, i, actual, path, depth, limit) + FieldsFrom(a, i + 1, actual, path, depth, limit)
  }

  function DeclaredField(a: ResolvedObject, i: nat, actual: Entries<Json>, path: seq<Segment>, depth: nat, limit: nat)
    : seq<Failure>
    requires i < |a.fields|
    decreases a, 0, 0
  {
    var name := a.fields[i].0;
    var found := Find(actual, name);
    if found.None? then [Failure(AtBody(path + [Key(name)]), MissingField)]
    else FieldFailures(a.fields[i].1, found.value, path + [Key(name)], depth, limit)
  }

  /** Members of an exactly matched object that no field declares, from index `j` on. */
  function ExtrasFrom(declared: Entries<ResolvedField>, actual: Entries<Json>, j: nat, path: seq<Segment>): seq<Failure>
    requires j <= |actual|
    decreases |actual| - j
  {
    if j == |actual| then []
    else
      (if actual[j].0 in Keys(declared) then []
       else [Failure(AtBody(path + [Key(actual[j].0)]), UnexpectedField)])
      + ExtrasFrom(declared, actual, j + 1, path)
  }

  function FieldFailures(field: ResolvedField, actual: Json, path: seq<Segment>, depth: nat, limit: nat): seq<Failure>
    decreases field, 2, 0
  {
    if !HasType(actual, field.expectedType) then [Failure(AtBody(path), TypeMismatch)]
    else
      (if field.expectedValue.Some? then
         CompareFailures(
           field.expectedValue.value, actual, path, depth + 1, field.expectedType.TNumber?, limit)
       else [])
      + (if field.nested.Some? && actual.Obj? then
           ObjectFailures(field.nested.value, actual.fields, path, depth + 1, limit)
         else [])
  }

  function StatusFailures(expected: Option<int>, actual: int): seq<Failure> {
    if expected.Some? && expected.value != actual then [Failure(AtStatus, StatusMismatch)] else []
  }

  function HeaderFailuresFrom(headers: Entries<ResolvedHeader>, i: nat, response: HttpResponse): seq<Failure>
    requires i <= |headers|
    decreases |headers| - i
  {
    if i == |headers| then []
    else
      (if HeaderSatisfied(headers[i].1, response.Header(headers[i].0)) then []
       else [Failure(AtHeader(headers[i].0), HeaderMismatch)])
      + HeaderFailuresFrom(headers, i + 1, response)
  }

  function BodyFailures(expected: Option<ResolvedBody>, response: HttpResponse, limit: nat): seq<Failure> {
    match expected
    case None => []
    case Some(ExpectEmpty) =>
      if response.body.RawBytes() != Utf8("") then [Failure(AtBody([]), ValueMismatch)] else []
    case Some(ExpectText(text)) =>
      if !response.body.TextBody? then [Failure(AtBody([]), InvalidBody)]
      else if !response.body.raw.Utf8? then [Failure(AtBody([]), InvalidBody)]
      else if !TextSatisfied(text, response.body.raw.text) then [Failure(AtBody([]), ValueMismatch)]
      else []
    case Some(ExpectJson(shape)) =>
      if !response.body.JsonBody? then [Failure(AtBody([]), InvalidBody)]
      else if !response.body.value.Obj? then [Failure(AtBody([]), TypeMismatch)]
      else ObjectFailures(shape, response.body.value.fields, [], 0, limit)
  }

  /** Every failure of one response: status, then headers in declaration order, then the body. */
  function AllFailures(expected: ResolvedExpectation, response: HttpResponse, limit: nat): seq<Failure> {
    StatusFailures(expected.status, response.status)
    + HeaderFailuresFrom(expected.headers, 0, response)
    + BodyFailures(expected.body, response, limit)
  }
}
