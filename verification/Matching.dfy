/** When a response satisfies an expectation, said without any evaluation order; the engine decides exactly this. */
module Matching {
  import opened Wrappers
  import opened IndexMap
  import opened JsonValues
  import opened Numbers
  import opened Response
  import opened Expectation
  import opened AssertionSpec
  import opened AssertionEngine

  /** Objects match partially, arrays in length and order, scalars by value; integers only match integers unless `flexible`. */
  ghost predicate ValueMatches(expected: Json, actual: Json, flexible: bool)
    decreases expected
  {
    match expected
    case Obj(fields) =>
      actual.Obj? && forall i | 0 <= i < |fields| ::
        && Find(actual.fields, fields[i].0).Some?
        && ValueMatches(fields[i].1, Find(actual.fields, fields[i].0).value, FlexibleNumber(fields[i].1))
    case Arr(items) =>
      && actual.Arr?
      && |items| == |actual.items|
      && forall i | 0 <= i < |items| :: ValueMatches(items[i], actual.items[i], FlexibleNumber(items[i]))
    case Num(number) =>
      && actual.Num?
      && (IsInteger(number) && !flexible ==> IsInteger(actual.num))
      && NumbersEqual(number, actual.num)
    case _ => actual == expected
  }

  /** Every container of a value placed at `depth` stays within the limit. */
  predicate Fits(value: Json, depth: nat, limit: nat) {
    Height(value) == 0 || depth + Height(value) <= limit + 1
  }

  ghost predicate FieldMatches(field: ResolvedField, actual: Json, depth: nat, limit: nat)
    decreases field, 1
  {
    && HasType(actual, field.expectedType)
    && (field.expectedValue.Some? ==>
          && ValueMatches(field.expectedValue.value, actual, field.expectedType.TNumber?)
          && Fits(field.expectedValue.value, depth + 1, limit))
    && (field.nested.Some? && actual.Obj? ==>
          ObjectMatches(field.nested.value, actual.fields, depth + 1, limit))
  }

  ghost predicate ObjectMatches(a: ResolvedObject, actual: Entries<Json>, depth: nat, limit: nat)
    decreases a, 1
  {
    && depth <= limit
    && (forall i | 0 <= i < |a.fields| ::
          && Find(actual, a.fields[i].0).Some?
          && FieldMatches(a.fields[i].1, Find(actual, a.fields[i].0).value, depth, limit))
    && (a.mode.MatchExact? ==> Keys(actual) <= Keys(a.fields))
  }

  ghost predicate BodyMatches(expected: ResolvedBody, body: ResponseBody, limit: nat) {
    match expected
    case ExpectEmpty => body.RawBytes() == Utf8("")
    case ExpectText(text) => body.TextBody? && body.raw.Utf8? && TextSatisfied(text, body.raw.text)
    case ExpectJson(shape) => body.JsonBody? && body.value.Obj? && ObjectMatches(shape, body.value.fields, 0, limit)
  }

  ghost predicate Satisfies(expected: ResolvedExpectation, response: HttpResponse, limit: nat) {
    && (expected.status.Some? ==> response.status == expected.status.value)
    && (forall i | 0 <= i < |expected.headers| ::
          HeaderSatisfied(expected.headers[i].1, response.Header(expected.headers[i].0)))
    && (expected.body.Some? ==> BodyMatches(expected.body.value, response.body, limit))
  }

  lemma {:induction false} FieldsFit(fields: Entries<Json>, depth: nat, limit: nat)
    requires depth <= limit
    ensures (forall k | 0 <= k < |fields| :: Fits(fields[k].1, depth + 1, limit))
        <==> depth + 1 + FieldsHeight(fields) <= limit + 1
  {
    if fields != [] {
      FieldsFit(fields[1..], depth, limit);
      assert forall k | 1 <= k < |fields| :: fields[k] == fields[1..][k - 1];
      assert forall k | 0 <= k < |fields| - 1 :: fields[1..][k] == fields[k + 1];
    }
  }

  lemma {:induction false} ItemsFit(items: seq<Json>, depth: nat, limit: nat)
    requires depth <= limit
    ensures (forall k | 0 <= k < |items| :: Fits(items[k], depth + 1, limit))
        <==> depth + 1 + ItemsHeight(items) <= limit + 1
  {
    if items != [] {
      ItemsFit(items[1..], depth, limit);
      assert forall k | 1 <= k < |items| :: items[k] == items[1..][k - 1];
      assert forall k | 0 <= k < |items| - 1 :: items[1..][k] == items[k + 1];
    }
  }

  /** Comparing reports nothing exactly when the values match and the expected containers fit the depth limit. */
  lemma {:induction false} CompareIsExact(
    expected: Json, actual: Json, path: seq<Segment>, depth: nat, flexible: bool, limit: nat)
    ensures CompareFailures(expected, actual, path, depth, flexible, limit) == []
       <==> ValueMatches(expected, actual, flexible) && Fits(expected, depth, limit)
    decreases expected, 1, 0
  {
    match expected
    case Obj(fields) =>
      if actual.Obj? && depth <= limit {
        CompareFieldsIsExact(expected, 0, actual.fields, path, depth, limit);
        FieldsFit(fields, depth, limit);
        assert Fits(expected, depth, limit) <==> forall k | 0 <= k < |fields| :: Fits(fields[k].1, depth + 1, limit);
      }
    case Arr(items) =>
      if actual.Arr? && depth <= limit {
        if |items| == |actual.items| {
          CompareItemsIsExact(expected, 0, actual.items, path, depth, limit);
          ItemsFit(items, depth, limit);
          assert Fits(expected, depth, limit) <==> forall k | 0 <= k < |items| :: Fits(items[k], depth + 1, limit);
        }
      }
    case _ =>
  }

  lemma {:induction false} CompareFieldsIsExact(
    expected: Json, i: nat, actual: Entries<Json>, path: seq<Segment>, depth: nat, limit: nat)
    requires expected.Obj? && i <= |expected.fields|
    ensures CompareFieldsFrom(expected, i, actual, path, depth, limit) == []
       <==> forall k | i <= k < |expected.fields| ::
              && Find(actual, expected.fields[k].0).Some?
              && ValueMatches(expected.fields[k].1, Find(actual, expected.fields[k].0).value,
                              FlexibleNumber(expected.fields[k].1))
              && Fits(expected.fields[k].1, depth + 1, limit)
    decreases expected, 0, |expected.fields| - i
  {
    if i < |expected.fields| {
      CompareFieldsIsExact(expected, i + 1, actual, path, depth, limit);
      var (key, value) := expected.fields[i];
      var found := Find(actual, key);
      if found.Some? {
        CompareIsExact(
          expected.fields[i].1, found.value, path + [Key(key)], depth + 1, FlexibleNumber(value), limit);
      }
    }
  }

  lemma {:induction false} CompareItemsIsExact(
    expected: Json, i: nat, actual: seq<Json>, path: seq<Segment>, depth: nat, limit: nat)
    requires expected.Arr? && i <= |expected.items| == |actual|
    ensures CompareItemsFrom(expected, i, actual, path, depth, limit) == []
       <==> forall k | i <= k < |expected.items| ::
              && ValueMatches(expected.items[k], actual[k], FlexibleNumber(expected.items[k]))
              && Fits(expected.items[k], depth + 1, limit)
    decreases expected, 0, |expected.items| - i
  {
    if i < |expected.items| {
      CompareItemsIsExact(expected, i + 1, actual, path, depth, limit);
      CompareIsExact(
        expected.items[i], actual[i], path + [Index(i)], depth + 1, FlexibleNumber(expected.items[i]), limit);
    }
  }

  lemma {:induction false} ObjectIsExact(
    a: ResolvedObject, actual: Entries<Json>, path: seq<Segment>, depth: nat, limit: nat)
    ensures ObjectFailures(a, actual, path, depth, limit) == [] <==> ObjectMatches(a, actual, depth, limit)
    decreases a, 1, 0
  {
    DeclaredIsExact(a, 0, actual, path, depth, limit);
    ExtrasIsExact(a.fields, actual, 0, path);
    if depth <= limit {
      var declared := FieldsFrom(a, 0, actual, path, depth, limit);
      var extras := if a.mode.MatchExact? then ExtrasFrom(a.fields, actual, 0, path) else [];
      assert ObjectFailures(a, actual, path, depth, limit) == declared + extras;
      assert extras == [] <==> (a.mode.MatchExact? ==> Keys(actual) <= Keys(a.fields));
    }
  }

  lemma {:induction false} DeclaredIsExact(
    a: ResolvedObject, i: nat, actual: Entries<Json>, path: seq<Segment>, depth: nat, limit: nat)
    requires i <= |a.fields|
    ensures FieldsFrom(a, i, actual, path, depth, limit) == []
       <==> forall k | i <= k < |a.fields| ::
              && Find(actual, a.fields[k].0).Some?
              && FieldMatches(a.fields[k].1, Find(actual, a.fields[k].0).value, depth, limit)
    decreases a, 0, |a.fields| - i
  {
    if i < |a.fields| {
      DeclaredIsExact(a, i + 1, actual, path, depth, limit);
      var found := Find(actual, a.fields[i].0);
      if found.Some? {
        FieldIsExact(a.fields[i].1, found.value, path + [Key(a.fields[i].0)], depth, limit);
      }
      assert DeclaredField(a, i, actual, path, depth, limit) == [] <==>
             found.Some? && FieldMatches(a.fields[i].1, found.value, depth, limit);
      var tail := FieldsFrom(a, i + 1, actual, path, depth, limit);
      assert FieldsFrom(a, i, actual, path, depth, limit) == DeclaredField(a, i, actual, path, depth, limit) + tail;
    }
  }

  lemma {:induction false} FieldIsExact(
    field: ResolvedField, actual: Json, path: seq<Segment>, depth: nat, limit: nat)
    ensures FieldFailures(field, actual, path, depth, limit) == [] <==> FieldMatches(field, actual, depth, limit)
    decreases field, 2, 0
  {
    if field.expectedValue.Some? {
      CompareIsExact(field.expectedValue.value, actual, path, depth + 1, field.expectedType.TNumber?, limit);
    }
    if field.nested.Some? && actual.Obj? {
      ObjectIsExact(field.nested.value, actual.fields, path, depth + 1, limit);
    }
  }

  lemma {:induction false} ExtrasIsExact(
    declared: Entries<ResolvedField>, actual: Entries<Json>, j: nat, path: seq<Segment>)
    requires j <= |actual|
    ensures ExtrasFrom(declared, actual, j, path) == []
       <==> forall k | j <= k < |actual| :: actual[k].0 in Keys(declared)
    decreases |actual| - j
  {
    if j < |actual| {
      ExtrasIsExact(declared, actual, j + 1, path);
    }
  }

  lemma {:induction false} HeadersIsExact(headers: Entries<ResolvedHeader>, i: nat, response: HttpResponse)
    requires i <= |headers|
    ensures HeaderFailuresFrom(headers, i, response) == []
       <==> forall k | i <= k < |headers| :: HeaderSatisfied(headers[k].1, response.Header(headers[k].0))
    decreases |headers| - i
  {
    if i < |headers| {
      HeadersIsExact(headers, i + 1, response);
    }
  }

  /** Soundness and completeness of the engine: for every retention limit, no failure exactly when satisfied. */
  lemma ReportIsExact(config: AssertionConfig, expected: ResolvedExpectation, response: HttpResponse)
    ensures Evaluated(config, expected, response).IsSuccess() <==> Satisfies(expected, response, config.maxJsonDepth)
  {
    BoundedReportIsPrefix(config, expected, response);
    HeadersIsExact(expected.headers, 0, response);
    if expected.body.Some? && expected.body.value.ExpectJson? && response.body.JsonBody? && response.body.value.Obj? {
      ObjectIsExact(expected.body.value.shape, response.body.value.fields, [], 0, config.maxJsonDepth);
    }
  }

  lemma {:induction false} ValueMatchesItself(value: Json, flexible: bool)
    requires Canonical(value)
    ensures ValueMatches(value, value, flexible)
  {
    match value
    case Obj(fields) =>
      SortedIsDistinct(fields);
      forall i | 0 <= i < |fields|
        ensures Find(fields, fields[i].0) == Some(fields[i].1)
        ensures ValueMatches(fields[i].1, fields[i].1, FlexibleNumber(fields[i].1))
      {
        FindDistinct(fields, i);
        ValueMatchesItself(value.fields[i].1, FlexibleNumber(fields[i].1));
      }
    case Arr(items) =>
      forall i | 0 <= i < |items| ensures ValueMatches(items[i], items[i], FlexibleNumber(items[i])) {
        ValueMatchesItself(items[i], FlexibleNumber(items[i]));
      }
    case _ =>
  }

  lemma {:induction false} ValueMatchesCompose(a: Json, b: Json, c: Json, ab: bool, bc: bool)
    requires ValueMatches(a, b, ab) && ValueMatches(b, c, bc)
    requires bc ==> ab || FlexibleNumber(b)
    ensures ValueMatches(a, c, ab)
  {
    match a
    case Obj(fields) =>
      forall i | 0 <= i < |fields|
        ensures Find(c.fields, fields[i].0).Some?
        ensures ValueMatches(fields[i].1, Find(c.fields, fields[i].0).value, FlexibleNumber(fields[i].1))
      {
        var inB := Find(b.fields, fields[i].0).value;
        var k :| 0 <= k < |b.fields| && b.fields[k] == (fields[i].0, inB);
        ValueMatchesCompose(
          a.fields[i].1, inB, Find(c.fields, fields[i].0).value, FlexibleNumber(fields[i].1), FlexibleNumber(inB));
      }
    case Arr(items) =>
      forall i | 0 <= i < |items| ensures ValueMatches(items[i], c.items[i], FlexibleNumber(items[i])) {
        ValueMatchesCompose(
          items[i], b.items[i], c.items[i], FlexibleNumber(items[i]), FlexibleNumber(b.items[i]));
      }
    case Num(number) => NumbersEqualIsEquivalence(number, b.num, c.num);
    case _ =>
  }

  /** The comparison of values is a preorder: reflexive and transitive, within the depth limit. */
  lemma ComparisonIsPreorder(a: Json, b: Json, c: Json, path: seq<Segment>, depth: nat, flexible: bool, limit: nat)
    ensures Canonical(a) && Fits(a, depth, limit) ==> CompareFailures(a, a, path, depth, flexible, limit) == []
    ensures && CompareFailures(a, b, path, depth, flexible, limit) == []
            && CompareFailures(b, c, path, depth, flexible, limit) == []
            ==> CompareFailures(a, c, path, depth, flexible, limit) == []
  {
    CompareIsExact(a, a, path, depth, flexible, limit);
    CompareIsExact(a, b, path, depth, flexible, limit);
    CompareIsExact(b, c, path, depth, flexible, limit);
    CompareIsExact(a, c, path, depth, flexible, limit);
    if Canonical(a) {
      ValueMatchesItself(a, flexible);
    }
    if ValueMatches(a, b, flexible) && ValueMatches(b, c, flexible) {
      ValueMatchesCompose(a, b, c, flexible, flexible);
    }
  }
}
