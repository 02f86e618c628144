/** Staging captures from one successful response, crates/rettp-runtime/src/capture.rs:31-78, 167-222. */
module Capture {
  import opened Wrappers
  import opened IndexMap
  import opened JsonValues
  import opened Response
  import opened Expectation
  import opened AssertionSpec
  import opened AssertionEngine
  import opened Matching
  import opened Variables
  import opened RuntimeErrors

  predicate ContainsCapture(a: ResolvedObject)
    decreases a
  {
    exists i | 0 <= i < |a.fields| :: FieldContainsCapture(a.fields[i].1)
  }

  predicate FieldContainsCapture(field: ResolvedField)
    decreases field
  {
    field.capture.Some? || (field.nested.Some? && ContainsCapture(field.nested.value))
  }

  /** One variable at the end of `staged`, unless its name is taken. */
  function StageOne(name: string, value: Json, staged: Contents): Result<Contents, RuntimeError> {
    if name in Keys(staged) then Err(DuplicateVariable(name)) else Ok(staged + [(name, JsonContent(value))])
  }

  /**
   * Reference form: every capture is a deep clone of the member it names. `path` is the path of the object itself.
   */
  function StageFrom(a: ResolvedObject, i: nat, actual: Entries<Json>, path: seq<string>, staged: Contents)
    : Result<Contents, RuntimeError>
    requires i <= |a.fields|
    decreases a, |a.fields| - i
  {
    if i == |a.fields| then Ok(staged)
    else
      var next :- StageField(a.fields[i].1, actual, path, staged);
      StageFrom(a, i + 1, actual, path, next)
  }

  function StageField(field: ResolvedField, actual: Entries<Json>, path: seq<string>, staged: Contents)
    : Result<Contents, RuntimeError>
    decreases field
  {
    var here := path + [field.fieldName];
    var found := Find(actual, field.fieldName);
    if found.None? then Err(MissingCaptureField(here))
    else
      var own :- if field.capture.Some? then StageOne(field.capture.value, found.value, staged) else Ok(staged);
      if field.nested.None? then Ok(own)
      else if !found.value.Obj? then Err(InvalidNestedCaptureField(here))
      else StageFrom(field.nested.value, 0, found.value.fields, here, own)
  }

  /** A root shared by enclosing captures together with the depth its own path starts at. */
  datatype Ancestor = Ancestor(root: Json, baseDepth: nat)

  /** The shared root really leads to the object under extraction. */
  ghost predicate LeadsTo(ancestor: Option<Ancestor>, capturePath: seq<string>, actual: Entries<Json>) {
    ancestor.Some? ==>
      && ancestor.value.baseDepth <= |capturePath|
      && Walk(ancestor.value.root, capturePath[ancestor.value.baseDepth..]) == Some(Obj(actual))
  }

  /**
   * `extract_object`: sharing one root among all captures below the outermost captured ancestor stages exactly what
   * deep cloning would; the path is restored on success.
   */
  method ExtractObject(
    a: ResolvedObject, actual: Entries<Json>, ancestor: Option<Ancestor>, capturePath: seq<string>,
    pending: PendingCaptures)
    returns (r: Result<(), RuntimeError>, pathAfter: seq<string>)
    requires pending.Valid() && LeadsTo(ancestor, capturePath, actual)
    modifies pending
    ensures pending.Valid()
    ensures match StageFrom(a, 0, actual, capturePath, old(pending.Staged()))
            case Ok(staged) => r.Ok? && pending.Staged() == staged && pathAfter == capturePath
            case Err(error) => r == Err(error)
    decreases a, 1
  {
    pathAfter := capturePath;
    var i := 0;
    while i < |a.fields|
      invariant i <= |a.fields| && pending.Valid() && pathAfter == capturePath
      invariant StageFrom(a, i, actual, capturePath, pending.Staged())
             == StageFrom(a, 0, actual, capturePath, old(pending.Staged()))
    {
      r, pathAfter := ExtractField(a.fields[i].1, actual, ancestor, pathAfter, pending);
      if r.Err? {
        return;
      }
      i := i + 1;
    }
    r := Ok(());
  }

  /** The body of the loop over fields. */
  method ExtractField(
    field: ResolvedField, actual: Entries<Json>, ancestor: Option<Ancestor>, capturePath: seq<string>,
    pending: PendingCaptures)
    returns (r: Result<(), RuntimeError>, pathAfter: seq<string>)
    requires pending.Valid() && LeadsTo(ancestor, capturePath, actual)
    modifies pending
    ensures pending.Valid()
    ensures match StageField(field, actual, capturePath, old(pending.Staged()))
            case Ok(staged) => r.Ok? && pending.Staged() == staged && pathAfter == capturePath
            case Err(error) => r == Err(error)
    decreases field, 2
  {
    pathAfter := capturePath + [field.fieldName];
    var found := Find(actual, field.fieldName);
    if found.None? {
      return Err(MissingCaptureField(pathAfter)), pathAfter;
    }
    if ancestor.Some? {
      StepBelow(ancestor.value, capturePath, actual, field.fieldName);
    }
    var descendant := ancestor;
    if field.capture.Some? {
      var captured: VariableValue;
      if ancestor.Some? {
        captured := SharedJson(ancestor.value.root, pathAfter[ancestor.value.baseDepth..]);
      } else {
        descendant := Some(Ancestor(found.value, |pathAfter|));
        captured := SharedJson(found.value, []);
        assert pathAfter[|pathAfter|..] == [];
      }
      r := pending.Insert(field.capture.value, captured);
      if r.Err? {
        return;
      }
    }
    if field.nested.Some? {
      if !found.value.Obj? {
        return Err(InvalidNestedCaptureField(pathAfter)), pathAfter;
      }
      assert Obj(found.value.fields) == found.value;
      r, pathAfter := ExtractObject(field.nested.value, found.value.fields, descendant, pathAfter, pending);
      if r.Err? {
        return;
      }
    }
    pathAfter := pathAfter[..|pathAfter| - 1];
    assert pathAfter == capturePath;
    r := Ok(());
  }

  lemma StepBelow(ancestor: Ancestor, capturePath: seq<string>, actual: Entries<Json>, name: string)
    requires LeadsTo(Some(ancestor), capturePath, actual)
    ensures Walk(ancestor.root, (capturePath + [name])[ancestor.baseDepth..]) == Find(actual, name)
  {
    var path := capturePath[ancestor.baseDepth..];
    assert (capturePath + [name])[ancestor.baseDepth..] == path + [name];
    WalkAppend(ancestor.root, path, name);
  }

  /** Every capture an assertion declares, with the full path of the member it names, outer before inner. */
  function DeclaredFrom(a: ResolvedObject, i: nat, path: seq<string>): seq<(string, seq<string>)>
    requires i <= |a.fields|
    decreases a, |a.fields| - i
  {
    if i == |a.fields| then [] else DeclaredIn(a.fields[i].1, path) + DeclaredFrom(a, i + 1, path)
  }

  function DeclaredIn(field: ResolvedField, path: seq<string>): seq<(string, seq<string>)>
    decreases field
  {
    var here := path + [field.fieldName];
    (if field.capture.Some? then [(field.capture.value, here)] else [])
    + (if field.nested.Some? then DeclaredFrom(field.nested.value, 0, here) else [])
  }

  /** What a converted assertion has: keys are the field names, and only object fields have nested assertions. */
  ghost predicate WellTyped(a: ResolvedObject)
    decreases a
  {
    forall i | 0 <= i < |a.fields| :: a.fields[i].0 == a.fields[i].1.fieldName && FieldWellTyped(a.fields[i].1)
  }

  ghost predicate FieldWellTyped(field: ResolvedField)
    decreases field
  {
    field.nested.Some? ==> field.expectedType.TObject? && WellTyped(field.nested.value)
  }

  /** The values at the given paths of the body, under their names. */
  function ValuesAt(body: Json, captures: seq<(string, seq<string>)>): (r: Contents)
    requires forall c | c in captures :: Walk(body, c.1).Some?
    ensures |r| == |captures| && Keys(r) == Keys(captures)
  {
    var r := seq(|captures|, k requires 0 <= k < |captures| =>
      assert captures[k] in captures;
      (captures[k].0, JsonContent(Walk(body, captures[k].1).value)));
    assert forall k | 0 <= k < |r| :: r[k].0 == captures[k].0;
    r
  }

  lemma ValuesAtAppend(body: Json, a: seq<(string, seq<string>)>, b: seq<(string, seq<string>)>)
    requires forall c | c in a + b :: Walk(body, c.1).Some?
    ensures (forall c | c in a :: Walk(body, c.1).Some?) && (forall c | c in b :: Walk(body, c.1).Some?)
    ensures ValuesAt(body, a + b) == ValuesAt(body, a) + ValuesAt(body, b)
  {
    assert forall c | c in a :: c in a + b;
    assert forall c | c in b :: c in a + b;
  }

  /** No declared capture has a name that is staged already or declared twice. */
  ghost predicate Fresh(captures: seq<(string, seq<string>)>, staged: Contents) {
    && (forall k | 0 <= k < |captures| :: captures[k].0 !in Keys(staged))
    && Distinct(captures)
  }

  lemma {:induction false} FreshSplit(
    body: Json, a: seq<(string, seq<string>)>, b: seq<(string, seq<string>)>, staged: Contents)
    requires forall c | c in a :: Walk(body, c.1).Some?
    ensures Fresh(a + b, staged) <==> Fresh(a, staged) && Fresh(b, staged + ValuesAt(body, a))
  {
    KeysAppend(staged, ValuesAt(body, a));
    forall k | 0 <= k < |a| ensures a[k].0 in Keys(a) && (a + b)[k] == a[k] {
    }
    assert forall k | 0 <= k < |b| :: (a + b)[|a| + k] == b[k];
    if Fresh(a + b, staged) {
      forall k | 0 <= k < |b| ensures b[k].0 !in Keys(a) {
        assert forall i | 0 <= i < |a| :: (a + b)[i].0 != (a + b)[|a| + k].0;
      }
    }
  }

  /** What staging does when the object matched: it succeeds iff the names are fresh, and then holds the named values. */
  ghost predicate StagesExactly(
    r: Result<Contents, RuntimeError>, body: Json, captures: seq<(string, seq<string>)>, staged: Contents)
  {
    && (forall c | c in captures :: Walk(body, c.1).Some?)
    && (Fresh(captures, staged) ==> r == Ok(staged + ValuesAt(body, captures)))
    && (!Fresh(captures, staged) ==> r.Err? && r.error.DuplicateVariable?)
  }

  lemma {:induction false} StageFromExact(
    a: ResolvedObject, i: nat, actual: Entries<Json>, path: seq<string>, staged: Contents,
    body: Json, depth: nat, limit: nat)
    requires i <= |a.fields| && WellTyped(a)
    requires Walk(body, path) == Some(Obj(actual))
    requires forall k | i <= k < |a.fields| ::
               && Find(actual, a.fields[k].0).Some?
               && FieldMatches(a.fields[k].1, Find(actual, a.fields[k].0).value, depth, limit)
    ensures StagesExactly(StageFrom(a, i, actual, path, staged), body, DeclaredFrom(a, i, path), staged)
    decreases a, |a.fields| - i
  {
    if i == |a.fields| {
      assert staged + [] == staged;
    } else {
      var field := a.fields[i].1;
      StageFieldExact(a.fields[i].1, actual, path, staged, body, depth, limit);
      var head := DeclaredIn(field, path);
      var tail := DeclaredFrom(a, i + 1, path);
      var next := staged + ValuesAt(body, head);
      StageFromExact(a, i + 1, actual, path, next, body, depth, limit);
      ComposeStages(body, head, tail, staged, StageField(field, actual, path, staged),
                    StageFrom(a, i + 1, actual, path, next), StageFrom(a, i, actual, path, staged));
    }
  }

  /** Two exact stages in a row are one exact stage. */
  lemma ComposeStages(
    body: Json, head: seq<(string, seq<string>)>, tail: seq<(string, seq<string>)>, staged: Contents,
    first: Result<Contents, RuntimeError>, second: Result<Contents, RuntimeError>, both: Result<Contents, RuntimeError>)
    requires StagesExactly(first, body, head, staged)
    requires StagesExactly(second, body, tail, staged + ValuesAt(body, head))
    requires both == if first.Err? then first else second
    ensures StagesExactly(both, body, head + tail, staged)
  {
    FreshSplit(body, head, tail, staged);
    ValuesAtAppend(body, head, tail);
    if Fresh(head + tail, staged) {
      var a, b := ValuesAt(body, head), ValuesAt(body, tail);
      assert staged + a + b == staged + (a + b);
    }
  }

  lemma StageOneExact(name: string, value: Json, here: seq<string>, body: Json, staged: Contents)
    requires Walk(body, here) == Some(value)
    ensures StagesExactly(StageOne(name, value, staged), body, [(name, here)], staged)
  {
    var own := [(name, here)];
    assert own[0].0 == name;
    assert ValuesAt(body, own) == [(name, JsonContent(value))];
  }

  lemma {:induction false} StageFieldExact(
    field: ResolvedField, actual: Entries<Json>, path: seq<string>, staged: Contents,
    body: Json, depth: nat, limit: nat)
    requires FieldWellTyped(field)
    requires Walk(body, path) == Some(Obj(actual))
    requires Find(actual, field.fieldName).Some?
    requires FieldMatches(field, Find(actual, field.fieldName).value, depth, limit)
    ensures StagesExactly(StageField(field, actual, path, staged), body, DeclaredIn(field, path), staged)
    decreases field
  {
    var here := path + [field.fieldName];
    var value := Find(actual, field.fieldName).value;
    WalkAppend(body, path, field.fieldName);
    var own := if field.capture.Some? then [(field.capture.value, here)] else [];
    var first := if field.capture.Some? then StageOne(field.capture.value, value, staged) else Ok(staged);
    if field.capture.Some? {
      StageOneExact(field.capture.value, value, here, body, staged);
    } else {
      assert staged + [] == staged;
    }
    assert StagesExactly(first, body, own, staged);
    var next := staged + ValuesAt(body, own);
    if field.nested.Some? {
      assert ObjectMatches(field.nested.value, value.fields, depth + 1, limit);
      StageFromExact(field.nested.value, 0, value.fields, here, next, body, depth + 1, limit);
      ComposeStages(body, own, DeclaredFrom(field.nested.value, 0, here), staged, first,
                    StageFrom(field.nested.value, 0, value.fields, here, next),
                    StageField(field, actual, path, staged));
    } else {
      assert own + [] == own;
    }
  }

  lemma {:induction false} NoCaptureDeclaresNothing(a: ResolvedObject, i: nat, path: seq<string>)
    requires i <= |a.fields| && !ContainsCapture(a)
    ensures DeclaredFrom(a, i, path) == []
    decreases a, |a.fields| - i
  {
    if i < |a.fields| {
      var field := a.fields[i].1;
      assert !FieldContainsCapture(field);
      if field.nested.Some? {
        NoCaptureDeclaresNothing(a.fields[i].1.nested.value, 0, path + [field.fieldName]);
      }
      NoCaptureDeclaresNothing(a, i + 1, path);
    }
  }

  datatype StagedEvaluation = StagedEvaluation(report: Report, staged: Option<Contents>)

  /** The result of `CaptureEngine::evaluate` as a function of its inputs, with deep-cloned captures. */
  function CaptureOutcome(config: AssertionConfig, expected: ResolvedExpectation, response: HttpResponse)
    : Result<StagedEvaluation, RuntimeError>
  {
    var report := Evaluated(config, expected, response);
    if !report.IsSuccess() then Ok(StagedEvaluation(report, None))
    else if expected.body.None? || !expected.body.value.ExpectJson? || !ContainsCapture(expected.body.value.shape) then
      Ok(StagedEvaluation(report, Some([])))
    else if !(response.body.JsonBody? && response.body.value.Obj?) then Err(InvalidCaptureBody)
    else
      var staged :- StageFrom(expected.body.value.shape, 0, response.body.value.fields, [], []);
      Ok(StagedEvaluation(report, Some(staged)))
  }

  datatype CaptureEvaluation = CaptureEvaluation(report: Report, pending: Option<PendingCaptures>)

  method EvaluateCaptures(config: AssertionConfig, expected: ResolvedExpectation, response: HttpResponse)
    returns (r: Result<CaptureEvaluation, RuntimeError>)
    ensures match CaptureOutcome(config, expected, response)
            case Err(error) => r == Err(error)
            case Ok(outcome) =>
              && r.Ok?
              && r.value.report == outcome.report
              && (r.value.pending.Some? <==> outcome.staged.Some?)
              && (outcome.staged.Some? ==>
                    && fresh(r.value.pending.value)
                    && r.value.pending.value.Valid()
                    && r.value.pending.value.Staged() == outcome.staged.value)
  {
    var report := Evaluate(config, expected, response);
    if !report.IsSuccess() {
      return Ok(CaptureEvaluation(report, None));
    }
    var pending := new PendingCaptures();
    if expected.body.None? || !expected.body.value.ExpectJson? {
      return Ok(CaptureEvaluation(report, Some(pending)));
    }
    var shape := expected.body.value.shape;
    if !ContainsCapture(shape) {
      return Ok(CaptureEvaluation(report, Some(pending)));
    }
    if !(response.body.JsonBody? && response.body.value.Obj?) {
      return Err(InvalidCaptureBody);
    }
    var extracted, _ := ExtractObject(shape, response.body.value.fields, None, [], pending);
    if extracted.Err? {
      return Err(extracted.error);
    }
    return Ok(CaptureEvaluation(report, Some(pending)));
  }

  /** The captures a whole expectation declares, with their full paths in the response body. */
  function DeclaredCaptures(expected: ResolvedExpectation): seq<(string, seq<string>)> {
    if expected.body.Some? && expected.body.value.ExpectJson? then DeclaredFrom(expected.body.value.shape, 0, []) else []
  }

  ghost predicate ExpectationWellTyped(expected: ResolvedExpectation) {
    expected.body.Some? && expected.body.value.ExpectJson? ==> WellTyped(expected.body.value.shape)
  }

  /**
   * After a successful report the only error left is a repeated name. Without one, every declared capture is staged,
   * in order, with the response value at its full path.
   */
  lemma CaptureAfterSuccess(config: AssertionConfig, expected: ResolvedExpectation, response: HttpResponse)
    requires ExpectationWellTyped(expected)
    requires Evaluated(config, expected, response).IsSuccess()
    ensures var captures := DeclaredCaptures(expected);
            var outcome := CaptureOutcome(config, expected, response);
            if !Fresh(captures, []) then
              outcome.Err? && outcome.error.DuplicateVariable?
            else
              && outcome.Ok? && outcome.value.staged.Some?
              && |outcome.value.staged.value| == |captures|
              && forall k | 0 <= k < |captures| ::
                   && response.body.JsonBody?
                   && Walk(response.body.value, captures[k].1).Some?
                   && outcome.value.staged.value[k]
                      == (captures[k].0, JsonContent(Walk(response.body.value, captures[k].1).value))
  {
    ReportIsExact(config, expected, response);
    if expected.body.Some? && expected.body.value.ExpectJson? {
      var shape := expected.body.value.shape;
      if !ContainsCapture(shape) {
        NoCaptureDeclaresNothing(shape, 0, []);
      } else {
        var body := response.body.value;
        assert ObjectMatches(shape, body.fields, 0, config.maxJsonDepth);
        assert body == Obj(body.fields);
        StageFromExact(shape, 0, body.fields, [], [], body, 0, config.maxJsonDepth);
        var captures := DeclaredFrom(shape, 0, []);
        if Fresh(captures, []) {
          assert [] + ValuesAt(body, captures) == ValuesAt(body, captures);
        }
      }
    }
  }
}
