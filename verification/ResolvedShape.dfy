/** What resolution keeps of an expectation: its captures, its typing, and its depth budget. */
module ResolvedShape {
  import opened Wrappers
  import opened IndexMap
  import opened JsonValues
  import opened Response
  import opened Domain
  import opened Variables
  import opened RuntimeErrors
  import opened Expectation
  import opened Interpolation
  import opened Resolver
  import opened ResolverFacts
  import opened Matching
  import opened Capture
  import opened AssertionSpec

  // ---- captures and typing ----

  /** The captures an unresolved assertion declares, with the full paths of the members they name. */
  function SourceCapturesFrom(a: ObjectAssertion, i: nat, path: seq<string>): seq<(string, seq<string>)>
    requires i <= |a.fields|
    decreases a, |a.fields| - i
  {
    if i == |a.fields| then [] else SourceCapturesIn(a.fields[i].1, path) + SourceCapturesFrom(a, i + 1, path)
  }

  function SourceCapturesIn(field: FieldAssertion, path: seq<string>): seq<(string, seq<string>)>
    decreases field
  {
    var here := path + [field.fieldName];
    (if field.capture.Some? then [(field.capture.value, here)] else [])
    + (if field.nested.Some? then SourceCapturesFrom(field.nested.value, 0, here) else [])
  }

  function SourceCaptures(expectation: ResponseExpectation): seq<(string, seq<string>)> {
    if expectation.body.Some? && expectation.body.value.JsonAssertion? then
      SourceCapturesFrom(expectation.body.value.shape, 0, [])
    else []
  }

  ghost predicate SourceWellTyped(a: ObjectAssertion)
    decreases a
  {
    forall i | 0 <= i < |a.fields| :: a.fields[i].0 == a.fields[i].1.fieldName && SourceFieldWellTyped(a.fields[i].1)
  }

  ghost predicate SourceFieldWellTyped(field: FieldAssertion)
    decreases field
  {
    field.nested.Some? ==> field.expectedType.TObject? && SourceWellTyped(field.nested.value)
  }

  ghost predicate SourceExpectationWellTyped(expectation: ResponseExpectation) {
    expectation.body.Some? && expectation.body.value.JsonAssertion? ==> SourceWellTyped(expectation.body.value.shape)
  }

  /** Fields correspond one to one. */
  lemma {:induction false} FieldsCorrespond(
    config: RuntimeConfig, a: ObjectAssertion, i: nat, variables: Contents, depth: nat)
    requires i <= |a.fields| && ResolveFieldsFrom(config, a, i, variables, depth).Ok?
    ensures var fields := ResolveFieldsFrom(config, a, i, variables, depth).value;
            && |fields| == |a.fields| - i
            && forall k | i <= k < |a.fields| ::
                 && fields[k - i].0 == a.fields[k].0
                 && ResolveField(config, a.fields[k].1, variables, depth) == Ok(fields[k - i].1)
    decreases |a.fields| - i
  {
    if i < |a.fields| {
      FieldsCorrespond(config, a, i + 1, variables, depth);
    }
  }

  lemma {:induction false} CapturesKept(
    config: RuntimeConfig, a: ObjectAssertion, r: ResolvedObject, i: nat, variables: Contents, depth: nat,
    path: seq<string>)
    requires ResolveObject(config, a, variables, depth) == Ok(r) && i <= |a.fields|
    ensures |r.fields| == |a.fields|
    ensures DeclaredFrom(r, i, path) == SourceCapturesFrom(a, i, path)
    decreases a, |a.fields| - i
  {
    FieldsCorrespond(config, a, 0, variables, depth + 1);
    if i < |a.fields| {
      assert ResolveField(config, a.fields[i].1, variables, depth + 1) == Ok(r.fields[i].1);
      FieldCapturesKept(config, a.fields[i].1, r.fields[i].1, variables, depth + 1, path);
      CapturesKept(config, a, r, i + 1, variables, depth, path);
    }
  }

  lemma {:induction false} FieldCapturesKept(
    config: RuntimeConfig, field: FieldAssertion, r: ResolvedField, variables: Contents, depth: nat, path: seq<string>)
    requires ResolveField(config, field, variables, depth) == Ok(r)
    ensures r.fieldName == field.fieldName
    ensures DeclaredIn(r, path) == SourceCapturesIn(field, path)
    decreases field
  {
    if field.nested.Some? {
      CapturesKept(
        config, field.nested.value, r.nested.value, 0, variables, depth, path + [field.fieldName]);
    }
  }

  lemma {:induction false} TypingKept(
    config: RuntimeConfig, a: ObjectAssertion, r: ResolvedObject, variables: Contents, depth: nat)
    requires ResolveObject(config, a, variables, depth) == Ok(r) && SourceWellTyped(a)
    ensures WellTyped(r)
    decreases a
  {
    FieldsCorrespond(config, a, 0, variables, depth + 1);
    forall i | 0 <= i < |r.fields|
      ensures r.fields[i].0 == r.fields[i].1.fieldName && FieldWellTyped(r.fields[i].1)
    {
      var field := a.fields[i].1;
      assert ResolveField(config, field, variables, depth + 1) == Ok(r.fields[i].1);
      if field.nested.Some? {
        TypingKept(config, a.fields[i].1.nested.value, r.fields[i].1.nested.value, variables, depth + 1);
      }
    }
  }

  /** Resolution changes neither what is captured, nor where, nor the typing captures rely on. */
  lemma ExpectationShapeKept(
    config: RuntimeConfig, expectation: ResponseExpectation, r: ResolvedExpectation, variables: Contents)
    requires ResolveExpectation(config, expectation, variables) == Ok(r)
    ensures DeclaredCaptures(r) == SourceCaptures(expectation)
    ensures SourceExpectationWellTyped(expectation) ==> ExpectationWellTyped(r)
  {
    if expectation.body.Some? && expectation.body.value.JsonAssertion? {
      var shape := expectation.body.value.shape;
      CapturesKept(config, shape, r.body.value.shape, 0, variables, 0, []);
      if SourceWellTyped(shape) {
        TypingKept(config, shape, r.body.value.shape, variables, 0);
      }
    }
  }

  // ---- depths ----

  lemma {:induction false} NodeDepthBound(fields: Entries<Json>, bound: nat)
    requires forall e | e in fields :: NodeDepth(e.1) <= bound
    ensures FieldsNodeDepth(fields) <= bound
  {
    if fields != [] {
      NodeDepthBound(fields[1..], bound);
    }
  }

  lemma {:induction false} ItemsNodeDepthBound(items: seq<Json>, bound: nat)
    requires forall e | e in items :: NodeDepth(e) <= bound
    ensures ItemsNodeDepth(items) <= bound
  {
    if items != [] {
      ItemsNodeDepthBound(items[1..], bound);
    }
  }

  /** Containers are at most one level deeper than nodes. */
  lemma {:induction false} HeightByNodeDepth(value: Json)
    ensures Height(value) <= NodeDepth(value) + 1
    decreases value
  {
    match value
    case Arr(items) =>
      forall i | 0 <= i < |items| ensures Height(items[i]) <= ItemsNodeDepth(items) + 1 {
        HeightByNodeDepth(items[i]);
        HeightOfItem(items, i);
      }
      ItemsHeightBound(items, ItemsNodeDepth(items) + 1);
    case Obj(fields) =>
      forall e | e in fields ensures Height(e.1) <= FieldsNodeDepth(fields) + 1 {
        var i :| 0 <= i < |fields| && fields[i] == e;
        HeightByNodeDepth(value.fields[i].1);
        HeightOfField(fields, i);
      }
      HeightBound(fields, FieldsNodeDepth(fields) + 1);
    case _ =>
  }

  lemma {:induction false} ItemsHeightBound(items: seq<Json>, bound: nat)
    requires forall i | 0 <= i < |items| :: Height(items[i]) <= bound
    ensures ItemsHeight(items) <= bound
  {
    if items != [] {
      ItemsHeightBound(items[1..], bound);
    }
  }

  /** A value no deeper than the limit when placed at `depth`. */
  predicate DeepEnough(value: Json, depth: nat, limit: nat) {
    depth + NodeDepth(value) <= limit
  }

  lemma {:induction false} CloneWithin(config: RuntimeConfig, value: Json, depth: nat)
    requires CloneBounded(config, value, depth).Ok?
    ensures DeepEnough(CloneBounded(config, value, depth).value, depth, config.maxResolutionDepth)
    decreases value
  {
    var limit := config.maxResolutionDepth;
    match value
    case Arr(items) =>
      CloneItemsWithin(config, items, depth + 1);
      ArrWithin(CloneItems(config, items, depth + 1).value, depth, limit);
    case Obj(fields) =>
      CloneFieldsWithin(config, fields, depth + 1);
      ObjWithin(CloneFields(config, fields, depth + 1).value, depth, limit);
    case _ =>
  }

  lemma {:induction false} CloneItemsWithin(config: RuntimeConfig, items: seq<Json>, depth: nat)
    requires CloneItems(config, items, depth).Ok?
    ensures forall e | e in CloneItems(config, items, depth).value :: DeepEnough(e, depth, config.maxResolutionDepth)
    decreases items
  {
    if items != [] {
      CloneWithin(config, items[0], depth);
      CloneItemsWithin(config, items[1..], depth);
    }
  }

  lemma {:induction false} CloneFieldsWithin(config: RuntimeConfig, fields: Entries<Json>, depth: nat)
    requires CloneFields(config, fields, depth).Ok?
    ensures forall e | e in CloneFields(config, fields, depth).value ::
              DeepEnough(e.1, depth, config.maxResolutionDepth)
    decreases fields
  {
    if fields != [] {
      CloneFieldWithin(config, fields[0], depth);
      CloneFieldsWithin(config, fields[1..], depth);
    }
  }

  lemma {:induction false} CloneFieldWithin(config: RuntimeConfig, field: (string, Json), depth: nat)
    requires CloneField(config, field, depth).Ok?
    ensures DeepEnough(CloneField(config, field, depth).value, depth, config.maxResolutionDepth)
    decreases field
  {
    CloneWithin(config, field.1, depth);
  }

  lemma ArrWithin(items: seq<Json>, depth: nat, limit: nat)
    requires depth <= limit && forall e | e in items :: DeepEnough(e, depth + 1, limit)
    ensures DeepEnough(Arr(items), depth, limit)
  {
    if items != [] {
      assert items[0] in items && DeepEnough(items[0], depth + 1, limit);
      forall e | e in items ensures NodeDepth(e) <= limit - depth - 1 {
        assert DeepEnough(e, depth + 1, limit);
      }
      ItemsNodeDepthBound(items, limit - depth - 1);
    }
  }

  lemma ObjWithin(entries: Entries<Json>, depth: nat, limit: nat)
    requires depth <= limit && forall e | e in entries :: DeepEnough(e.1, depth + 1, limit)
    ensures DeepEnough(Obj(Collect([], entries)), depth, limit)
  {
    var fields := Collect([], entries);
    if fields != [] {
      assert fields[0] in entries;
      assert DeepEnough(fields[0].1, depth + 1, limit);
      forall e | e in fields ensures NodeDepth(e.1) <= limit - depth - 1 {
        assert DeepEnough(e.1, depth + 1, limit);
      }
      NodeDepthBound(fields, limit - depth - 1);
    }
  }

  lemma {:induction false} JsonWithin(
    config: RuntimeConfig, value: Value, variables: Contents, location: ResolutionLocation, depth: nat)
    requires ResolveJson(config, value, variables, location, depth).Ok?
    ensures DeepEnough(ResolveJson(config, value, variables, location, depth).value, depth, config.maxResolutionDepth)
    decreases value
  {
    var limit := config.maxResolutionDepth;
    match value
    case StringValue(raw) =>
      var structured := StructuredPlaceholder(config, raw, variables, location);
      if structured.value.Some? {
        CloneWithin(config, structured.value.value, depth);
      }
    case ArrayValue(items) =>
      JsonItemsWithin(config, items, variables, location, depth + 1);
      ArrWithin(ResolveJsonItems(config, items, variables, location, depth + 1).value, depth, limit);
    case ObjectValue(fields) =>
      JsonEntriesWithin(config, fields, variables, location, depth + 1);
      ObjWithin(ResolveJsonEntries(config, fields, variables, location, depth + 1).value, depth, limit);
    case _ =>
  }

  lemma {:induction false} JsonItemsWithin(
    config: RuntimeConfig, items: seq<Value>, variables: Contents, location: ResolutionLocation, depth: nat)
    requires ResolveJsonItems(config, items, variables, location, depth).Ok?
    ensures forall e | e in ResolveJsonItems(config, items, variables, location, depth).value ::
              DeepEnough(e, depth, config.maxResolutionDepth)
    decreases items
  {
    if items != [] {
      JsonWithin(config, items[0], variables, location, depth);
      JsonItemsWithin(config, items[1..], variables, location, depth);
    }
  }

  lemma {:induction false} JsonEntriesWithin(
    config: RuntimeConfig, entries: Entries<Value>, variables: Contents, location: ResolutionLocation, depth: nat)
    requires ResolveJsonEntries(config, entries, variables, location, depth).Ok?
    ensures forall e | e in ResolveJsonEntries(config, entries, variables, location, depth).value ::
              DeepEnough(e.1, depth, config.maxResolutionDepth)
    decreases entries
  {
    if entries != [] {
      JsonEntryWithin(config, entries[0], variables, location, depth);
      JsonEntriesWithin(config, entries[1..], variables, location, depth);
    }
  }

  lemma {:induction false} JsonEntryWithin(
    config: RuntimeConfig, entry: (string, Value), variables: Contents, location: ResolutionLocation, depth: nat)
    requires ResolveJsonEntry(config, entry, variables, location, depth).Ok?
    ensures DeepEnough(
              ResolveJsonEntry(config, entry, variables, location, depth).value, depth, config.maxResolutionDepth)
    decreases entry
  {
    JsonWithin(config, entry.1, variables, location, depth);
  }

  /** Every object assertion and every expected value of `a`, placed at `depth`, stays within the limit. */
  ghost predicate Within(a: ResolvedObject, depth: nat, limit: nat)
    decreases a
  {
    depth <= limit && forall i | 0 <= i < |a.fields| :: FieldWithin(a.fields[i].1, depth + 1, limit)
  }

  ghost predicate FieldWithin(field: ResolvedField, depth: nat, limit: nat)
    decreases field
  {
    && (field.expectedValue.Some? ==> DeepEnough(field.expectedValue.value, depth, limit))
    && (field.nested.Some? ==> Within(field.nested.value, depth, limit))
  }

  lemma {:induction false} ResolvedObjectWithin(
    config: RuntimeConfig, a: ObjectAssertion, r: ResolvedObject, variables: Contents, depth: nat)
    requires ResolveObject(config, a, variables, depth) == Ok(r)
    ensures Within(r, depth, config.maxResolutionDepth)
    decreases a
  {
    FieldsCorrespond(config, a, 0, variables, depth + 1);
    forall i | 0 <= i < |r.fields| ensures FieldWithin(r.fields[i].1, depth + 1, config.maxResolutionDepth) {
      var field := a.fields[i].1;
      assert ResolveField(config, field, variables, depth + 1) == Ok(r.fields[i].1);
      if field.expectedValue.Some? {
        JsonWithin(config, field.expectedValue.value, variables, ResolutionLocation.ExpectedJson, depth + 1);
      }
      if field.nested.Some? {
        ResolvedObjectWithin(
          config, a.fields[i].1.nested.value, r.fields[i].1.nested.value, variables, depth + 1);
      }
    }
  }

  /** Inside the budget the engine's own depth limit plays no part. */
  lemma {:induction false} LimitDoesNotMatter(
    a: ResolvedObject, actual: Entries<Json>, depth: nat, budget: nat, limit: nat)
    requires Within(a, depth, budget) && budget <= limit
    ensures ObjectMatches(a, actual, depth, budget) <==> ObjectMatches(a, actual, depth, limit)
    decreases a
  {
    forall i | 0 <= i < |a.fields| && Find(actual, a.fields[i].0).Some?
      ensures FieldMatches(a.fields[i].1, Find(actual, a.fields[i].0).value, depth, budget)
         <==> FieldMatches(a.fields[i].1, Find(actual, a.fields[i].0).value, depth, limit)
    {
      assert FieldWithin(a.fields[i].1, depth + 1, budget);
      FieldLimitDoesNotMatter(a.fields[i].1, Find(actual, a.fields[i].0).value, depth, budget, limit);
    }
  }

  lemma {:induction false} FieldLimitDoesNotMatter(
    field: ResolvedField, actual: Json, depth: nat, budget: nat, limit: nat)
    requires FieldWithin(field, depth + 1, budget) && budget <= limit
    ensures FieldMatches(field, actual, depth, budget) <==> FieldMatches(field, actual, depth, limit)
    decreases field
  {
    if field.expectedValue.Some? {
      HeightByNodeDepth(field.expectedValue.value);
    }
    if field.nested.Some? && actual.Obj? {
      LimitDoesNotMatter(field.nested.value, actual.fields, depth + 1, budget, limit);
    }
  }

  /**
   * Depth limits line up: once an expectation was resolved under some depth limit, an assertion engine with at least
   * that limit never decides anything by depth.
   */
  lemma EngineDepthNeverDecides(
    config: RuntimeConfig, expectation: ResponseExpectation, r: ResolvedExpectation, variables: Contents,
    response: HttpResponse, limit: nat)
    requires ResolveExpectation(config, expectation, variables) == Ok(r)
    requires config.maxResolutionDepth <= limit
    ensures Satisfies(r, response, limit) <==> Satisfies(r, response, config.maxResolutionDepth)
  {
    if r.body.Some? && r.body.value.ExpectJson? && response.body.JsonBody? && response.body.value.Obj? {
      ResolvedObjectWithin(config, expectation.body.value.shape, r.body.value.shape, variables, 0);
      LimitDoesNotMatter(r.body.value.shape, response.body.value.fields, 0, config.maxResolutionDepth, limit);
    }
  }
}
