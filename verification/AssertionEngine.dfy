/** The bounded, early-stopping evaluation, crates/rettp-assertion/src/engine.rs:47-444. */
module AssertionEngine {
  import opened Wrappers
  import opened IndexMap
  import opened JsonValues
  import opened Numbers
  import opened Response
  import opened Expectation
  import opened AssertionSpec

  /** Limits accepted by `AssertionConfig::new`. */
  datatype RawAssertionConfig = AssertionConfig(maxFailures: nat, maxJsonDepth: nat)
  type AssertionConfig = c: RawAssertionConfig | c.maxFailures > 0 && 0 < c.maxJsonDepth <= 256
    witness AssertionConfig(100, 128)

  /** A bounded report: at most `max` failures and a mark that there were more. */
  datatype Report = Report(failures: seq<Failure>, truncated: bool) {
    predicate IsSuccess() {
      failures == []
    }

    /** Once marked, the report is full. */
    ghost predicate Bounded(max: nat) {
      |failures| <= max && (truncated ==> |failures| == max)
    }
  }

  const EMPTY_REPORT := Report([], false)

  function Push(report: Report, failure: Failure, max: nat): Report {
    if |report.failures| == max then report.(truncated := true) else report.(failures := report.failures + [failure])
  }

  function PushAll(report: Report, failures: seq<Failure>, max: nat): Report
    decreases |failures|
  {
    if failures == [] then report else PushAll(Push(report, failures[0], max), failures[1..], max)
  }

  lemma PushOne(report: Report, failure: Failure, max: nat)
    ensures PushAll(report, [failure], max) == Push(report, failure, max)
  {
    assert [failure][1..] == [];
    assert PushAll(Push(report, failure, max), [], max) == Push(report, failure, max);
  }

  /** The closed form: the report is the first `max` failures of the whole list, marked iff the list is longer. */
  lemma {:induction false} PushAllClosedForm(report: Report, failures: seq<Failure>, max: nat)
    requires report.Bounded(max)
    ensures var all := report.failures + failures;
            && PushAll(report, failures, max).failures == (if |all| <= max then all else all[..max])
            && PushAll(report, failures, max).truncated == (report.truncated || |all| > max)
            && PushAll(report, failures, max).Bounded(max)
    decreases |failures|
  {
    if failures == [] {
      assert report.failures + failures == report.failures;
    } else {
      var next := Push(report, failures[0], max);
      PushAllClosedForm(next, failures[1..], max);
      if |report.failures| < max {
        assert next.failures + failures[1..] == report.failures + failures;
      }
    }
  }

  lemma {:induction false} PushAllAppend(report: Report, a: seq<Failure>, b: seq<Failure>, max: nat)
    ensures PushAll(report, a + b, max) == PushAll(PushAll(report, a, max), b, max)
    decreases |a|
  {
    if a == [] {
      assert a + b == b;
    } else {
      assert (a + b)[1..] == a[1..] + b;
      PushAllAppend(Push(report, a[0], max), a[1..], b, max);
    }
  }

  /** Stopping early once marked changes nothing: the rest would be dropped anyway. */
  lemma StoppedIsFinal(report: Report, failures: seq<Failure>, max: nat)
    requires report.Bounded(max) && report.truncated
    ensures PushAll(report, failures, max) == report
  {
    PushAllClosedForm(report, failures, max);
  }

  class Evaluation {
    const config: AssertionConfig
    var failures: seq<Failure>
    var truncated: bool

    constructor (config: AssertionConfig)
      ensures Current() == EMPTY_REPORT && Valid() && this.config == config
    {
      this.config := config;
      failures, truncated := [], false;
    }

    function Current(): Report
      reads this
    {
      Report(failures, truncated)
    }

    ghost predicate Valid()
      reads this
    {
      Current().Bounded(config.maxFailures)
    }

    /** The report reached from this state by the failures of the rest of some evaluation. */
    ghost function Then(rest: seq<Failure>): Report
      reads this
    {
      PushAll(Current(), rest, config.maxFailures)
    }

    method PushFailure(failure: Failure)
      requires Valid()
      modifies this
      ensures Valid() && Current() == old(Then([failure]))
    {
      PushOne(Current(), failure, config.maxFailures);
      if |failures| == config.maxFailures {
        truncated := true;
      } else {
        failures := failures + [failure];
      }
    }

    method AssertStatus(expected: Option<int>, actual: int)
      requires Valid()
      modifies this
      ensures Valid() && Current() == old(Then(StatusFailures(expected, actual)))
    {
      if expected.Some? && expected.value != actual {
        PushFailure(Failure(AtStatus, StatusMismatch));
      }
    }

    method AssertHeaders(headers: Entries<ResolvedHeader>, response: HttpResponse)
      requires Valid()
      modifies this
      ensures Valid() && Current() == old(Then(HeaderFailuresFrom(headers, 0, response)))
    {
      var i := 0;
      while i < |headers|
        invariant i <= |headers| && Valid()
        invariant Then(HeaderFailuresFrom(headers, i, response)) == old(Then(HeaderFailuresFrom(headers, 0, response)))
      {
        ghost var before := Current();
        if !HeaderSatisfied(headers[i].1, response.Header(headers[i].0)) {
          var failure := Failure(AtHeader(headers[i].0), HeaderMismatch);
          PushFailure(failure);
          PushAllAppend(before, [failure], HeaderFailuresFrom(headers, i + 1, response), config.maxFailures);
          if truncated {
            StoppedIsFinal(Current(), HeaderFailuresFrom(headers, i + 1, response), config.maxFailures);
            return;
          }
        } else {
          assert [] + HeaderFailuresFrom(headers, i + 1, response) == HeaderFailuresFrom(headers, i + 1, response);
        }
        i := i + 1;
      }
    }

    method AssertBody(expected: Option<ResolvedBody>, response: HttpResponse)
      requires Valid()
      modifies this
      ensures Valid() && Current() == old(Then(BodyFailures(expected, response, config.maxJsonDepth)))
    {
      match expected
      case None =>
      case Some(ExpectEmpty) =>
        if response.body.RawBytes() != Utf8("") {
          PushFailure(Failure(AtBody([]), ValueMismatch));
        }
      case Some(ExpectText(text)) =>
        if !response.body.TextBody? {
          PushFailure(Failure(AtBody([]), InvalidBody));
          return;
        }
        if !response.body.raw.Utf8? {
          PushFailure(Failure(AtBody([]), InvalidBody));
          return;
        }
        if !TextSatisfied(text, response.body.raw.text) {
          PushFailure(Failure(AtBody([]), ValueMismatch));
        }
      case Some(ExpectJson(shape)) =>
        if !response.body.JsonBody? {
          PushFailure(Failure(AtBody([]), InvalidBody));
          return;
        }
        if !response.body.value.Obj? {
          PushFailure(Failure(AtBody([]), TypeMismatch));
          return;
        }
        AssertObject(shape, response.body.value.fields, [], 0);
    }

    method AssertObject(a: ResolvedObject, actual: Entries<Json>, path: seq<Segment>, depth: nat)
      requires Valid()
      modifies this
      ensures Valid() && Current() == old(Then(ObjectFailures(a, actual, path, depth, config.maxJsonDepth)))
      decreases a, 1
    {
      var entered := EnterDepth(path, depth);
      if !entered {
        return;
      }
      ghost var limit := config.maxJsonDepth;
      ghost var declared := FieldsFrom(a, 0, actual, path, depth, limit);
      ghost var extras := if a.mode.MatchExact? then ExtrasFrom(a.fields, actual, 0, path) else [];
      AssertDeclared(a, actual, path, depth);
      PushAllAppend(old(Current()), declared, extras, config.maxFailures);
      if truncated {
        StoppedIsFinal(Current(), extras, config.maxFailures);
        return;
      }
      if a.mode.MatchExact? {
        AssertNoExtras(a.fields, actual, path);
      }
    }

    method AssertDeclared(a: ResolvedObject, actual: Entries<Json>, path: seq<Segment>, depth: nat)
      requires Valid()
      modifies this
      ensures Valid() && Current() == old(Then(FieldsFrom(a, 0, actual, path, depth, config.maxJsonDepth)))
      decreases a, 0
    {
      ghost var limit := config.maxJsonDepth;
      var i := 0;
      while i < |a.fields|
        invariant i <= |a.fields| && Valid()
        invariant Then(FieldsFrom(a, i, actual, path, depth, limit))
               == old(Then(FieldsFrom(a, 0, actual, path, depth, limit)))
      {
        ghost var before := Current();
        ghost var rest := FieldsFrom(a, i + 1, actual, path, depth, limit);
        var name := a.fields[i].0;
        var found := Find(actual, name);
        if found.None? {
          PushFailure(Failure(AtBody(path + [Key(name)]), MissingField));
        } else {
          AssertField(a.fields[i].1, found.value, path + [Key(name)], depth);
        }
        PushAllAppend(before, DeclaredField(a, i, actual, path, depth, limit), rest, config.maxFailures);
        if truncated {
          StoppedIsFinal(Current(), rest, config.maxFailures);
          return;
        }
        i := i + 1;
      }
    }

    method AssertNoExtras(declared: Entries<ResolvedField>, actual: Entries<Json>, path: seq<Segment>)
      requires Valid()
      modifies this
      ensures Valid() && Current() == old(Then(ExtrasFrom(declared, actual, 0, path)))
    {
      var j := 0;
      while j < |actual|
        invariant j <= |actual| && Valid()
        invariant Then(ExtrasFrom(declared, actual, j, path)) == old(Then(ExtrasFrom(declared, actual, 0, path)))
      {
        ghost var before := Current();
        ghost var rest := ExtrasFrom(declared, actual, j + 1, path);
        if actual[j].0 !in Keys(declared) {
          var failure := Failure(AtBody(path + [Key(actual[j].0)]), UnexpectedField);
          PushFailure(failure);
          PushAllAppend(before, [failure], rest, config.maxFailures);
          if truncated {
            StoppedIsFinal(Current(), rest, config.maxFailures);
            return;
          }
        } else {
          assert [] + rest == rest;
        }
        j := j + 1;
      }
    }

    method AssertField(field: ResolvedField, actual: Json, path: seq<Segment>, depth: nat)
      requires Valid()
      modifies this
      ensures Valid() && Current() == old(Then(FieldFailures(field, actual, path, depth, config.maxJsonDepth)))
      decreases field, 2
    {
      if !HasType(actual, field.expectedType) {
        PushFailure(Failure(AtBody(path), TypeMismatch));
        return;
      }
      ghost var limit := config.maxJsonDepth;
      ghost var compared := if field.expectedValue.Some? then
        CompareFailures(field.expectedValue.value, actual, path, depth + 1, field.expectedType.TNumber?, limit) else [];
      ghost var nested := if field.nested.Some? && actual.Obj? then
        ObjectFailures(field.nested.value, actual.fields, path, depth + 1, limit) else [];
      if field.expectedValue.Some? {
        CompareJson(field.expectedValue.value, actual, path, depth + 1, field.expectedType.TNumber?);
      }
      PushAllAppend(old(Current()), compared, nested, config.maxFailures);
      if truncated {
        StoppedIsFinal(Current(), nested, config.maxFailures);
        return;
      }
      if field.nested.Some? && actual.Obj? {
        AssertObject(field.nested.value, actual.fields, path, depth + 1);
      }
    }

    method CompareJson(expected: Json, actual: Json, path: seq<Segment>, depth: nat, flexible: bool)
      requires Valid()
      modifies this
      ensures Valid()
      ensures Current() == old(Then(CompareFailures(expected, actual, path, depth, flexible, config.maxJsonDepth)))
      decreases expected, 1
    {
      if truncated {
        StoppedIsFinal(
          Current(), CompareFailures(expected, actual, path, depth, flexible, config.maxJsonDepth), config.maxFailures);
        return;
      }
      match expected
      case Obj(_) =>
        if !actual.Obj? {
          PushFailure(Failure(AtBody(path), TypeMismatch));
          return;
        }
        var entered := EnterDepth(path, depth);
        if entered {
          CompareFields(expected, actual.fields, path, depth);
        }
      case Arr(_) =>
        if !actual.Arr? {
          PushFailure(Failure(AtBody(path), TypeMismatch));
          return;
        }
        var entered := EnterDepth(path, depth);
        if entered {
          CompareItems(expected, actual, path, depth);
        }
      case _ => CompareScalar(expected, actual, path, flexible);
    }

    method CompareFields(expected: Json, actual: Entries<Json>, path: seq<Segment>, depth: nat)
      requires Valid() && expected.Obj?
      modifies this
      ensures Valid()
      ensures Current() == old(Then(CompareFieldsFrom(expected, 0, actual, path, depth, config.maxJsonDepth)))
      decreases expected, 0
    {
      ghost var limit := config.maxJsonDepth;
      var i := 0;
      while i < |expected.fields|
        invariant i <= |expected.fields| && Valid()
        invariant Then(CompareFieldsFrom(expected, i, actual, path, depth, limit))
               == old(Then(CompareFieldsFrom(expected, 0, actual, path, depth, limit)))
      {
        ghost var before := Current();
        ghost var rest := CompareFieldsFrom(expected, i + 1, actual, path, depth, limit);
        var (key, value) := expected.fields[i];
        var found := Find(actual, key);
        if found.None? {
          PushFailure(Failure(AtBody(path + [Key(key)]), MissingField));
        } else {
          CompareJson(expected.fields[i].1, found.value, path + [Key(key)], depth + 1, FlexibleNumber(value));
        }
        PushAllAppend(before, CompareMember(expected, i, actual, path, depth, limit), rest, config.maxFailures);
        if truncated {
          StoppedIsFinal(Current(), rest, config.maxFailures);
          return;
        }
        i := i + 1;
      }
    }

    method CompareItems(expected: Json, actual: Json, path: seq<Segment>, depth: nat)
      requires Valid() && expected.Arr? && actual.Arr?
      modifies this
      ensures Valid()
      ensures Current() == old(Then(LengthFailures(expected, actual, path)
                                    + CompareItemsFrom(expected, 0, actual.items, path, depth, config.maxJsonDepth)))
      decreases expected, 0
    {
      ghost var limit := config.maxJsonDepth;
      ghost var items := CompareItemsFrom(expected, 0, actual.items, path, depth, limit);
      if |expected.items| != |actual.items| {
        PushFailure(Failure(AtBody(path), ValueMismatch));
      }
      PushAllAppend(old(Current()), LengthFailures(expected, actual, path), items, config.maxFailures);
      if truncated {
        StoppedIsFinal(Current(), items, config.maxFailures);
        return;
      }
      var i := 0;
      while i < |expected.items| && i < |actual.items|
        invariant i <= |expected.items| && Valid()
        invariant Then(CompareItemsFrom(expected, i, actual.items, path, depth, limit))
               == old(Then(LengthFailures(expected, actual, path) + items))
      {
        ghost var before := Current();
        ghost var rest := CompareItemsFrom(expected, i + 1, actual.items, path, depth, limit);
        var value := expected.items[i];
        CompareJson(value, actual.items[i], path + [Index(i)], depth + 1, FlexibleNumber(value));
        PushAllAppend(
          before, CompareFailures(value, actual.items[i], path + [Index(i)], depth + 1, FlexibleNumber(value), limit),
          rest, config.maxFailures);
        if truncated {
          StoppedIsFinal(Current(), rest, config.maxFailures);
          return;
        }
        i := i + 1;
      }
    }

    method CompareScalar(expected: Json, actual: Json, path: seq<Segment>, flexible: bool)
      requires Valid() && !expected.IsContainer()
      modifies this
      ensures Valid() && Current() == old(Then(ScalarFailures(expected, actual, path, flexible)))
    {
      match expected
      case Num(number) =>
        if !actual.Num? {
          PushFailure(Failure(AtBody(path), TypeMismatch));
          return;
        }
        var typeMatches := flexible || !IsInteger(number) || IsInteger(actual.num);
        if !typeMatches {
          PushFailure(Failure(AtBody(path), TypeMismatch));
        } else if !NumbersEqual(number, actual.num) {
          PushFailure(Failure(AtBody(path), ValueMismatch));
        }
      case Str(text) =>
        if !actual.Str? {
          PushFailure(Failure(AtBody(path), TypeMismatch));
        } else if actual.s != text {
          PushFailure(Failure(AtBody(path), ValueMismatch));
        }
      case Bool(value) =>
        if !actual.Bool? {
          PushFailure(Failure(AtBody(path), TypeMismatch));
        } else if actual.b != value {
          PushFailure(Failure(AtBody(path), ValueMismatch));
        }
      case Null =>
        if !actual.Null? {
          PushFailure(Failure(AtBody(path), TypeMismatch));
        }
    }

    method EnterDepth(path: seq<Segment>, depth: nat) returns (entered: bool)
      requires Valid()
      modifies this
      ensures Valid() && entered == (depth <= config.maxJsonDepth)
      ensures Current() == old(Then(if entered then [] else [Failure(AtBody(path), InvalidBody)]))
    {
      if depth <= config.maxJsonDepth {
        return true;
      }
      PushFailure(Failure(AtBody(path), InvalidBody));
      return false;
    }
  }

  /**
   * `AssertionEngine::evaluate`: for every limit the report holds the first failures of the full list, is marked
   * exactly when some were dropped, and so decides pass or fail independently of the limit.
   */
  method Evaluate(config: AssertionConfig, expected: ResolvedExpectation, response: HttpResponse)
    returns (report: Report)
    ensures report == Evaluated(config, expected, response)
  {
    var evaluation := new Evaluation(config);
    ghost var limit := config.maxJsonDepth;
    ghost var status := StatusFailures(expected.status, response.status);
    ghost var headers := HeaderFailuresFrom(expected.headers, 0, response);
    ghost var body := BodyFailures(expected.body, response, limit);
    evaluation.AssertStatus(expected.status, response.status);
    PushAllAppend(EMPTY_REPORT, status, headers + body, config.maxFailures);
    assert status + (headers + body) == AllFailures(expected, response, limit);
    ghost var afterStatus := evaluation.Current();
    if !evaluation.truncated {
      evaluation.AssertHeaders(expected.headers, response);
      PushAllAppend(afterStatus, headers, body, config.maxFailures);
    } else {
      StoppedIsFinal(evaluation.Current(), headers + body, config.maxFailures);
      StoppedIsFinal(evaluation.Current(), body, config.maxFailures);
    }
    if !evaluation.truncated {
      evaluation.AssertBody(expected.body, response);
    } else {
      StoppedIsFinal(evaluation.Current(), body, config.maxFailures);
    }
    report := evaluation.Current();
  }

  /** The report as a function of what the engine is given. */
  function Evaluated(config: AssertionConfig, expected: ResolvedExpectation, response: HttpResponse): (report: Report) {
    PushAll(EMPTY_REPORT, AllFailures(expected, response, config.maxJsonDepth), config.maxFailures)
  }

  lemma BoundedReportIsPrefix(config: AssertionConfig, expected: ResolvedExpectation, response: HttpResponse)
    ensures var report := Evaluated(config, expected, response);
            var all := AllFailures(expected, response, config.maxJsonDepth);
            && report.failures == (if |all| <= config.maxFailures then all else all[..config.maxFailures])
            && (report.truncated <==> |all| > config.maxFailures)
            && (report.IsSuccess() <==> all == [])
  {
    var all := AllFailures(expected, response, config.maxJsonDepth);
    PushAllClosedForm(EMPTY_REPORT, all, config.maxFailures);
    assert EMPTY_REPORT.failures + all == all;
  }
}
