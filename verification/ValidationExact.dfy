/** Validation reports no error exactly for well-formed suites. */
module ValidationExact {
  import opened Wrappers
  import opened Text
  import opened IndexMap
  import opened JsonValues
  import opened Expectation
  import opened Domain
  import opened Ast
  import opened Template
  import opened ValidationSpec
  import opened WellFormed

  /** Errors are only ever added, and none is added exactly when `ok`. */
  ghost predicate Decides(before: Errors, after: Errors, ok: bool) {
    |before| <= |after| && (|after| == |before| <==> ok)
  }

  lemma {:induction false} VariablesDecided(errors: Errors, names: seq<string>, scope: set<string>)
    ensures Decides(errors, VariableErrors(errors, names, scope),
                    forall name | name in names :: ValidVariableName(name) && name in scope)
    decreases |names|
  {
    if names != [] {
      var next :=
        if !ValidVariableName(names[0]) then errors + [ErrorKind.InvalidVariableName(names[0])]
        else AddIf(errors, names[0] !in scope, UndefinedVariable(names[0]));
      VariablesDecided(next, names[1..], scope);
      assert names == [names[0]] + names[1..];
    }
  }

  lemma TextDecided(errors: Errors, raw: string, scope: set<string>)
    ensures Decides(errors, TextErrors(errors, raw, scope), Closed(raw, scope))
  {
    if Names(raw).Ok? {
      VariablesDecided(errors, Names(raw).value, scope);
    }
  }

  lemma {:induction false} ValueDecided(errors: Errors, value: ValueAst, scope: set<string>, depth: nat, limit: nat)
    ensures Decides(errors, ValueErrors(errors, value, scope, depth, limit), ValueOk(value, scope, depth, limit))
    decreases value
  {
    match value
    case StringAst(raw) => TextDecided(errors, raw, scope);
    case ArrayAst(items) =>
      if depth < limit {
        ItemsDecided(errors, items, scope, depth + 1, limit);
      }
    case ObjectAst(entries) =>
      if depth < limit {
        EntriesDecided(errors, entries, scope, depth + 1, DupObjectKey, {}, limit);
      }
    case _ =>
  }

  lemma {:induction false} ItemsDecided(
    errors: Errors, items: seq<ValueAst>, scope: set<string>, depth: nat, limit: nat)
    ensures Decides(errors, ItemsErrors(errors, items, scope, depth, limit),
                    forall i | 0 <= i < |items| :: ValueOk(items[i], scope, depth, limit))
    decreases items
  {
    if items != [] {
      ValueDecided(errors, items[0], scope, depth, limit);
      ItemsDecided(ValueErrors(errors, items[0], scope, depth, limit), items[1..], scope, depth, limit);
      assert forall i | 1 <= i < |items| :: items[i] == items[1..][i - 1];
      assert forall i | 0 <= i < |items| - 1 :: items[1..][i] == items[i + 1];
    }
  }

  /** Keys that may follow the names already used. */
  ghost predicate KeysFollow<V>(entries: Entries<V>, names: set<string>) {
    Distinct(entries) && forall i | 0 <= i < |entries| :: entries[i].0 != "" && entries[i].0 !in names
  }

  lemma KeysFollowStep<V>(entries: Entries<V>, names: set<string>)
    requires entries != []
    ensures KeysFollow(entries, names) <==>
            entries[0].0 != "" && entries[0].0 !in names && KeysFollow(entries[1..], names + {entries[0].0})
  {
    var rest := entries[1..];
    assert forall i | 0 <= i < |rest| :: rest[i] == entries[i + 1];
    assert forall i | 1 <= i < |entries| :: entries[i] == rest[i - 1];
    if KeysFollow(rest, names + {entries[0].0}) {
      assert forall i | 0 <= i < |rest| :: rest[i].0 !in names + {entries[0].0};
    }
  }

  lemma {:induction false} EntriesDecided(
    errors: Errors, entries: Entries<ValueAst>, scope: set<string>, depth: nat, kind: DuplicateKind,
    names: set<string>, limit: nat)
    ensures Decides(errors, EntriesErrors(errors, entries, scope, depth, kind, names, limit),
                    KeysFollow(entries, names) && EntriesOk(entries, scope, depth, limit))
    decreases entries
  {
    if entries != [] {
      var named := NameErrors(errors, entries[0].0, kind, names);
      EntryDecided(named, entries[0], scope, depth, limit);
      EntriesDecided(
        EntryErrors(named, entries[0], scope, depth, limit), entries[1..], scope, depth, kind,
        names + {entries[0].0}, limit);
      KeysFollowStep(entries, names);
      assert EntriesOk(entries, scope, depth, limit) <==>
             ValueOk(entries[0].1, scope, depth, limit) && EntriesOk(entries[1..], scope, depth, limit) by {
        assert forall i | 1 <= i < |entries| :: entries[i] == entries[1..][i - 1];
        assert forall i | 0 <= i < |entries| - 1 :: entries[1..][i] == entries[i + 1];
      }
    }
  }

  lemma {:induction false} EntryDecided(
    errors: Errors, entry: (string, ValueAst), scope: set<string>, depth: nat, limit: nat)
    ensures Decides(errors, EntryErrors(errors, entry, scope, depth, limit), ValueOk(entry.1, scope, depth, limit))
    decreases entry
  {
    ValueDecided(errors, entry.1, scope, depth, limit);
  }

  // ---- requests ----

  ghost predicate LowerKeysFollow(entries: Entries<ValueAst>, names: set<string>) {
    && (forall i, j | 0 <= i < j < |entries| :: Lower(entries[i].0) != Lower(entries[j].0))
    && forall i | 0 <= i < |entries| :: entries[i].0 != "" && Lower(entries[i].0) !in names
  }

  lemma {:induction false} RequestHeadersDecided(
    errors: Errors, entries: Entries<ValueAst>, scope: set<string>, names: set<string>, limit: nat)
    ensures Decides(errors, RequestHeadersErrors(errors, entries, scope, names, limit),
                    LowerKeysFollow(entries, names) && EntriesOk(entries, scope, 0, limit))
    decreases |entries|
  {
    if entries != [] {
      var rest, grown := entries[1..], names + {Lower(entries[0].0)};
      var named := HeaderNameErrors(errors, entries[0].0, DupRequestHeader, names);
      ValueDecided(named, entries[0].1, scope, 0, limit);
      RequestHeadersDecided(ValueErrors(named, entries[0].1, scope, 0, limit), rest, scope, grown, limit);
      assert forall i | 0 <= i < |rest| :: rest[i] == entries[i + 1];
      assert forall i | 1 <= i < |entries| :: entries[i] == rest[i - 1];
      assert EntriesOk(entries, scope, 0, limit) <==>
             ValueOk(entries[0].1, scope, 0, limit) && EntriesOk(rest, scope, 0, limit);
      assert LowerKeysFollow(entries, names) <==>
             entries[0].0 != "" && Lower(entries[0].0) !in names && LowerKeysFollow(rest, grown) by {
        if LowerKeysFollow(rest, grown) {
          assert forall i | 0 <= i < |rest| :: Lower(rest[i].0) !in grown;
        }
      }
    }
  }

  // ---- fresh names ----

  lemma FreshStep<T>(names: seq<T>, taken: set<T>)
    requires names != []
    ensures FreshNames(names, taken) <==> names[0] !in taken && FreshNames(names[1..], taken + {names[0]})
  {
    var rest := names[1..];
    assert forall i | 0 <= i < |rest| :: rest[i] == names[i + 1];
    assert forall i | 1 <= i < |names| :: names[i] == rest[i - 1];
    if FreshNames(rest, taken + {names[0]}) {
      assert forall i | 0 <= i < |rest| :: rest[i] !in taken + {names[0]};
    }
  }

  lemma NameSetAppend<T>(a: seq<T>, b: seq<T>)
    ensures NameSet(a + b) == NameSet(a) + NameSet(b)
  {
    forall x | x in NameSet(a) + NameSet(b) ensures x in NameSet(a + b) {
      if x in NameSet(a) {
        var i :| 0 <= i < |a| && a[i] == x;
        assert (a + b)[i] == x;
      } else {
        var i :| 0 <= i < |b| && b[i] == x;
        assert (a + b)[|a| + i] == x;
      }
    }
  }

  lemma FreshAppend<T>(a: seq<T>, b: seq<T>, taken: set<T>)
    ensures FreshNames(a + b, taken) <==> FreshNames(a, taken) && FreshNames(b, taken + NameSet(a))
  {
    var all := a + b;
    assert forall i | 0 <= i < |a| :: all[i] == a[i] && a[i] in NameSet(a);
    assert forall i | 0 <= i < |b| :: all[|a| + i] == b[i];
    if FreshNames(all, taken) {
      forall i | 0 <= i < |b| ensures b[i] !in NameSet(a) {
        assert all[|a| + i] == b[i];
      }
    }
    if FreshNames(b, taken + NameSet(a)) {
      assert forall i | 0 <= i < |b| :: b[i] !in taken + NameSet(a);
      assert forall i | |a| <= i < |all| :: all[i] == b[i - |a|];
    }
  }

  /** Validation visits nested captures before the capture of the field itself. */
  lemma FreshSwap<T>(a: seq<T>, b: seq<T>, taken: set<T>)
    ensures FreshNames(a + b, taken) <==> FreshNames(b + a, taken)
    ensures NameSet(a + b) == NameSet(b + a)
  {
    NameSetAppend(a, b);
    NameSetAppend(b, a);
    FreshSwapOneWay(a, b, taken);
    FreshSwapOneWay(b, a, taken);
  }

  lemma FreshSwapOneWay<T>(a: seq<T>, b: seq<T>, taken: set<T>)
    ensures FreshNames(a + b, taken) ==> FreshNames(b + a, taken)
  {
    if FreshNames(a + b, taken) {
      FreshAppend(a, b, taken);
      assert FreshNames(b, taken) by {
        assert forall i | 0 <= i < |b| :: b[i] !in taken + NameSet(a);
      }
      assert FreshNames(a, taken + NameSet(b)) by {
        forall i | 0 <= i < |a| ensures a[i] !in NameSet(b) {
          assert a[i] in NameSet(a);
          assert forall j | 0 <= j < |b| :: b[j] !in taken + NameSet(a);
        }
      }
      FreshAppend(b, a, taken);
    }
  }

  // ---- request sections ----

  function SeenKinds(scan: RequestScan): set<SectionKind> {
    (if scan.sawHeaders then {HeaderKind} else {})
    + (if scan.sawQuery then {QueryKind} else {})
    + (if scan.sawBody then {BodyKind} else {})
  }

  /** Names are collected only by sections that have been seen. */
  predicate Consistent(scan: RequestScan) {
    (scan.sawHeaders || scan.headerNames == {}) && (scan.sawQuery || scan.queryNames == {})
  }

  lemma SectionDecided(scan: RequestScan, verb: HttpMethod, section: RequestSection, scope: set<string>, limit: nat)
    requires Consistent(scan)
    ensures var next := SectionScan(scan, verb, section, scope, limit);
            && Consistent(next)
            && SeenKinds(next) == SeenKinds(scan) + {KindOf(section)}
            && Decides(scan.errors, next.errors,
                       KindOf(section) !in SeenKinds(scan) && SectionOk(verb, section, scope, limit))
  {
    match section
    case RequestHeaders(entries) =>
      var errors := AddIf(scan.errors, scan.sawHeaders, Duplicate(DupRequestHeaders));
      RequestHeadersDecided(errors, entries, scope, scan.headerNames, limit);
    case RequestQuery(entries) =>
      var errors := AddIf(scan.errors, scan.sawQuery, Duplicate(DupRequestQuery));
      EntriesDecided(errors, entries, scope, 0, DupQueryParameter, scan.queryNames, limit);
    case RequestBodySection(entries) =>
      var errors := AddIf(
        AddIf(scan.errors, scan.sawBody, Duplicate(DupRequestBody)),
        !MethodAllowsBody(verb), RequestBodyNotAllowed(verb));
      ValueDecided(errors, ObjectAst(entries), scope, 0, limit);
  }

  function KindsOf(sections: seq<RequestSection>): (r: seq<SectionKind>)
    ensures |r| == |sections| && forall i | 0 <= i < |r| :: r[i] == KindOf(sections[i])
  {
    seq(|sections|, i requires 0 <= i < |sections| => KindOf(sections[i]))
  }

  lemma {:induction false} SectionsDecided(
    scan: RequestScan, verb: HttpMethod, sections: seq<RequestSection>, scope: set<string>, limit: nat)
    requires Consistent(scan)
    ensures Decides(
              scan.errors, SectionsScan(scan, verb, sections, scope, limit).errors,
              && FreshNames(KindsOf(sections), SeenKinds(scan))
              && forall i | 0 <= i < |sections| :: SectionOk(verb, sections[i], scope, limit))
    decreases |sections|
  {
    if sections != [] {
      SectionDecided(scan, verb, sections[0], scope, limit);
      SectionsDecided(SectionScan(scan, verb, sections[0], scope, limit), verb, sections[1..], scope, limit);
      FreshStep(KindsOf(sections), SeenKinds(scan));
      assert KindsOf(sections)[1..] == KindsOf(sections[1..]);
      assert forall i | 1 <= i < |sections| :: sections[i] == sections[1..][i - 1];
      assert forall i | 0 <= i < |sections| - 1 :: sections[1..][i] == sections[i + 1];
    }
  }

  lemma RequestDecided(errors: Errors, request: RequestAst, scope: set<string>, limit: nat)
    ensures Decides(errors, RequestErrors(errors, request, scope, limit), RequestOk(request, scope, limit))
  {
    var pathed := AddIf(errors, request.path == "", EmptyRequestPath);
    TextDecided(pathed, request.path, scope);
    var scan := RequestScan(TextErrors(pathed, request.path, scope), false, false, false, {}, {});
    SectionsDecided(scan, request.verb, request.sections, scope, limit);
    var kinds := KindsOf(request.sections);
    assert FreshNames(kinds, {}) <==>
           forall i, j | 0 <= i < j < |request.sections| :: KindOf(request.sections[i]) != KindOf(request.sections[j]) by {
      assert forall i | 0 <= i < |kinds| :: kinds[i] == KindOf(request.sections[i]);
    }
  }

  // ---- assertions and their captures ----

  /** How a construct with captures is decided: without errors, exactly its names have been added. */
  ghost predicate DecidesCaptures(p: Progress, q: Progress, ok: bool, names: seq<string>, scope: set<string>) {
    && Decides(p.errors, q.errors, ok && FreshNames(names, scope + p.captures))
    && (|q.errors| == |p.errors| ==> q.captures == p.captures + NameSet(names))
  }

  /** Two constructs after each other. */
  lemma DecidesInTurn(
    p: Progress, q: Progress, r: Progress, okA: bool, okB: bool, a: seq<string>, b: seq<string>, scope: set<string>)
    requires DecidesCaptures(p, q, okA, a, scope) && DecidesCaptures(q, r, okB, b, scope)
    ensures DecidesCaptures(p, r, okA && okB, a + b, scope)
  {
    FreshAppend(a, b, scope + p.captures);
    NameSetAppend(a, b);
    if |q.errors| == |p.errors| {
      assert scope + q.captures == scope + p.captures + NameSet(a);
      assert p.captures + NameSet(a) + NameSet(b) == p.captures + NameSet(a + b);
    }
  }

  function OwnCapture(field: FieldAssertionAst): seq<string> {
    if field.capture.Some? then [field.capture.value] else []
  }

  function NestedCaptures(field: FieldAssertionAst): seq<string> {
    if field.nested.Some? then CaptureNamesFrom(field.nested.value, 0) else []
  }

  ghost predicate OwnCaptureOk(field: FieldAssertionAst) {
    field.capture.Some? ==> field.expectedType.Some? && ValidVariableName(field.capture.value)
  }

  lemma CaptureDecided(p: Progress, field: FieldAssertionAst, scope: set<string>)
    ensures DecidesCaptures(p, CaptureProgress(p, field, scope), OwnCaptureOk(field), OwnCapture(field), scope)
  {
    if field.capture.Some? {
      var names := OwnCapture(field);
      assert names[0] == field.capture.value && NameSet(names) == {field.capture.value};
    } else {
      assert NameSet(OwnCapture(field)) == {};
    }
  }

  ghost predicate HeadOk(field: FieldAssertionAst, scope: set<string>, depth: nat, limit: nat) {
    && (field.expectedType.Some? || field.expectedValue.Some? || field.nested.Some?)
    && (field.expectedValue.Some? ==>
          && (field.expectedType.Some? ==> TypeAccepts(field.expectedType.value, field.expectedValue.value))
          && ValueOk(field.expectedValue.value, scope, depth, limit))
  }

  lemma HeadDecided(errors: Errors, field: FieldAssertionAst, scope: set<string>, depth: nat, limit: nat)
    ensures Decides(errors, FieldHeadErrors(errors, field, scope, depth, limit), HeadOk(field, scope, depth, limit))
  {
    if field.expectedValue.Some? {
      var value := field.expectedValue.value;
      var missing := AddIf(
        errors, field.expectedType.None? && field.expectedValue.None? && field.nested.None?,
        MissingFieldAssertion(field.name));
      var typed :=
        if field.expectedType.Some? && !TypeAccepts(field.expectedType.value, value) then
          missing + [TypeValueMismatch(field.name, field.expectedType.value, InferType(value))]
        else missing;
      ValueDecided(typed, value, scope, depth, limit);
    }
  }

  ghost predicate NestedOk(field: FieldAssertionAst, scope: set<string>, depth: nat, limit: nat) {
    field.nested.Some? ==>
      && field.expectedType == Some(TObject)
      && field.nested.value.mode == MatchPartial
      && AssertionOk(field.nested.value, scope, depth, limit)
  }

  lemma {:induction false} FieldDecided(
    p: Progress, field: FieldAssertionAst, scope: set<string>, depth: nat, limit: nat)
    ensures DecidesCaptures(p, FieldProgress(p, field, scope, depth, limit), FieldOk(field, scope, depth, limit),
                            FieldCaptureNames(field), scope)
    decreases field, 1, 0
  {
    HeadDecided(p.errors, field, scope, depth, limit);
    var head := p.(errors := FieldHeadErrors(p.errors, field, scope, depth, limit));
    var nested := head;
    if field.nested.Some? {
      var entered := head.(errors := NestedHeadErrors(head.errors, field));
      nested := AssertionProgress(entered, field.nested.value, scope, depth, limit);
      AssertionDecided(entered, field.nested.value, scope, depth, limit);
    } else {
      assert NameSet(NestedCaptures(field)) == {};
    }
    assert DecidesCaptures(p, nested, HeadOk(field, scope, depth, limit) && NestedOk(field, scope, depth, limit),
                           NestedCaptures(field), scope);
    CaptureDecided(nested, field, scope);
    DecidesInTurn(p, nested, CaptureProgress(nested, field, scope),
                  HeadOk(field, scope, depth, limit) && NestedOk(field, scope, depth, limit), OwnCaptureOk(field),
                  NestedCaptures(field), OwnCapture(field), scope);
    FreshSwap(OwnCapture(field), NestedCaptures(field), scope + p.captures);
    assert FieldCaptureNames(field) == OwnCapture(field) + NestedCaptures(field);
  }

  lemma {:induction false} AssertionDecided(
    p: Progress, a: ObjectAssertionAst, scope: set<string>, depth: nat, limit: nat)
    ensures DecidesCaptures(p, AssertionProgress(p, a, scope, depth, limit), AssertionOk(a, scope, depth, limit),
                            CaptureNamesFrom(a, 0), scope)
    decreases a, 1, 0
  {
    if depth < limit {
      FieldsDecided(p, a, 0, {}, scope, depth + 1, limit);
    }
  }

  /** The fields from `i` on are fine and may follow the field names already used. */
  ghost predicate FieldsOk(a: ObjectAssertionAst, i: nat, names: set<string>, scope: set<string>, depth: nat, limit: nat) {
    && (forall k | i <= k < |a.fields| :: a.fields[k].name != "" && a.fields[k].name !in names)
    && (forall j, k | i <= j < k < |a.fields| :: a.fields[j].name != a.fields[k].name)
    && forall k | i <= k < |a.fields| :: FieldOk(a.fields[k], scope, depth, limit)
  }

  ghost predicate NextFieldOk(a: ObjectAssertionAst, i: nat, names: set<string>, scope: set<string>, depth: nat, limit: nat)
    requires i < |a.fields|
  {
    a.fields[i].name != "" && a.fields[i].name !in names && FieldOk(a.fields[i], scope, depth, limit)
  }

  lemma FieldsOkStep(a: ObjectAssertionAst, i: nat, names: set<string>, scope: set<string>, depth: nat, limit: nat)
    requires i < |a.fields|
    ensures FieldsOk(a, i, names, scope, depth, limit) <==>
            && NextFieldOk(a, i, names, scope, depth, limit)
            && FieldsOk(a, i + 1, names + {a.fields[i].name}, scope, depth, limit)
  {
    hide FieldOk;
    if FieldsOk(a, i + 1, names + {a.fields[i].name}, scope, depth, limit) {
      assert forall k | i + 1 <= k < |a.fields| :: a.fields[k].name !in names + {a.fields[i].name};
    }
  }

  lemma {:induction false} FieldsDecided(
    p: Progress, a: ObjectAssertionAst, i: nat, names: set<string>, scope: set<string>, depth: nat, limit: nat)
    requires i <= |a.fields|
    ensures DecidesCaptures(p, FieldsProgress(p, a, i, names, scope, depth, limit),
                            FieldsOk(a, i, names, scope, depth, limit), CaptureNamesFrom(a, i), scope)
    decreases a, 0, |a.fields| - i
  {
    if i == |a.fields| {
      assert NameSet(CaptureNamesFrom(a, i)) == {};
    } else {
      hide FreshNames;
      hide FieldsOk;
      hide FieldOk;
      var field := a.fields[i];
      var named := p.(errors := NameErrors(p.errors, field.name, DupAssertionField, names));
      FieldDecided(named, a.fields[i], scope, depth, limit);
      var next := FieldProgress(named, field, scope, depth, limit);
      var grown := names + {field.name};
      FieldsDecided(next, a, i + 1, grown, scope, depth, limit);
      DecidesInTurn(p, next, FieldsProgress(next, a, i + 1, grown, scope, depth, limit),
                    NextFieldOk(a, i, names, scope, depth, limit), FieldsOk(a, i + 1, grown, scope, depth, limit),
                    FieldCaptureNames(field), CaptureNamesFrom(a, i + 1), scope);
      FieldsOkStep(a, i, names, scope, depth, limit);
    }
  }

  // ---- expectations ----

  lemma {:induction false} ResponseHeadersDecided(
    errors: Errors, entries: seq<ResponseHeaderAst>, scope: set<string>, names: set<string>)
    ensures Decides(errors, ResponseHeadersErrors(errors, entries, scope, names),
                    && ResponseHeadersOk(entries, scope)
                    && forall i | 0 <= i < |entries| :: Lower(entries[i].name) !in names)
    decreases |entries|
  {
    if entries != [] {
      var rest, grown := entries[1..], names + {Lower(entries[0].name)};
      var named := HeaderNameErrors(errors, entries[0].name, DupResponseHeader, names);
      if !entries[0].ExistsAst? {
        TextDecided(named, entries[0].text, scope);
      }
      ResponseHeadersDecided(
        if entries[0].ExistsAst? then named else TextErrors(named, entries[0].text, scope), rest, scope, grown);
      assert forall i | 0 <= i < |rest| :: rest[i] == entries[i + 1];
      assert forall i | 1 <= i < |entries| :: entries[i] == rest[i - 1];
      if forall i | 0 <= i < |rest| :: Lower(rest[i].name) !in grown {
        assert forall i | 0 <= i < |rest| :: Lower(rest[i].name) != Lower(entries[0].name);
      }
    }
  }

  function SeenExpectationKinds(scan: ExpectationScan): set<SectionKind> {
    (if scan.sawStatus then {StatusKind} else {})
    + (if scan.sawHeaders then {HeaderKind} else {})
    + (if scan.sawBody then {BodyKind} else {})
  }

  predicate ConsistentExpectation(scan: ExpectationScan) {
    scan.sawHeaders || scan.headerNames == {}
  }

  function SectionCaptureNames(section: ExpectationSection): seq<string> {
    if section.BodySection? then BodyCaptureNames(section.body) else []
  }

  lemma BodyDecided(p: Progress, body: BodyAssertionAst, scope: set<string>, limit: nat)
    ensures DecidesCaptures(p, BodyProgress(p, body, scope, limit), BodyOk(body, scope, limit), BodyCaptureNames(body),
                            scope)
  {
    match body
    case EmptyBody => assert NameSet(BodyCaptureNames(body)) == {};
    case ObjectBody(shape) => AssertionDecided(p, shape, scope, 0, limit);
    case TextExactBody(text) =>
      TextDecided(p.errors, text, scope);
      assert NameSet(BodyCaptureNames(body)) == {};
    case TextContainsBody(text) =>
      TextDecided(p.errors, text, scope);
      assert NameSet(BodyCaptureNames(body)) == {};
  }

  lemma ExpectationSectionDecided(scan: ExpectationScan, section: ExpectationSection, scope: set<string>, limit: nat)
    requires ConsistentExpectation(scan)
    ensures var next := ExpectationSectionScan(scan, section, scope, limit);
            && ConsistentExpectation(next)
            && SeenExpectationKinds(next) == SeenExpectationKinds(scan) + {ExpectationKind(section)}
            && DecidesCaptures(
                 scan.progress, next.progress,
                 ExpectationKind(section) !in SeenExpectationKinds(scan) && ExpectationSectionOk(section, scope, limit),
                 SectionCaptureNames(section), scope)
  {
    var p := scan.progress;
    match section
    case StatusSection(status) => assert NameSet(SectionCaptureNames(section)) == {};
    case HeadersSection(entries) =>
      var errors := AddIf(p.errors, scan.sawHeaders, Duplicate(DupResponseHeaders));
      ResponseHeadersDecided(errors, entries, scope, scan.headerNames);
      assert NameSet(SectionCaptureNames(section)) == {};
    case BodySection(body) =>
      var errors := AddIf(p.errors, scan.sawBody, Duplicate(DupResponseBody));
      BodyDecided(p.(errors := errors), body, scope, limit);
  }

  function ExpectationKindsOf(sections: seq<ExpectationSection>): (r: seq<SectionKind>)
    ensures |r| == |sections| && forall i | 0 <= i < |r| :: r[i] == ExpectationKind(sections[i])
  {
    seq(|sections|, i requires 0 <= i < |sections| => ExpectationKind(sections[i]))
  }

  ghost predicate ExpectationSectionsOk(
    sections: seq<ExpectationSection>, seen: set<SectionKind>, scope: set<string>, limit: nat)
  {
    && FreshNames(ExpectationKindsOf(sections), seen)
    && forall i | 0 <= i < |sections| :: ExpectationSectionOk(sections[i], scope, limit)
  }

  lemma ExpectationSectionsStep(
    sections: seq<ExpectationSection>, seen: set<SectionKind>, scope: set<string>, limit: nat)
    requires sections != []
    ensures ExpectationSectionsOk(sections, seen, scope, limit) <==>
            && ExpectationKind(sections[0]) !in seen
            && ExpectationSectionOk(sections[0], scope, limit)
            && ExpectationSectionsOk(sections[1..], seen + {ExpectationKind(sections[0])}, scope, limit)
  {
    FreshStep(ExpectationKindsOf(sections), seen);
    assert ExpectationKindsOf(sections)[1..] == ExpectationKindsOf(sections[1..]);
    assert forall i | 1 <= i < |sections| :: sections[i] == sections[1..][i - 1];
    assert forall i | 0 <= i < |sections| - 1 :: sections[1..][i] == sections[i + 1];
  }

  lemma {:induction false} ExpectationSectionsDecided(
    scan: ExpectationScan, sections: seq<ExpectationSection>, scope: set<string>, limit: nat)
    requires ConsistentExpectation(scan)
    ensures DecidesCaptures(
              scan.progress, ExpectationSectionsScan(scan, sections, scope, limit).progress,
              ExpectationSectionsOk(sections, SeenExpectationKinds(scan), scope, limit),
              SectionsCaptureNames(sections), scope)
    decreases |sections|
  {
    if sections == [] {
      assert NameSet(SectionsCaptureNames(sections)) == {};
    } else {
      hide FreshNames;
      hide ExpectationSectionOk;
      ExpectationSectionDecided(scan, sections[0], scope, limit);
      var next := ExpectationSectionScan(scan, sections[0], scope, limit);
      ExpectationSectionsDecided(next, sections[1..], scope, limit);
      ExpectationSectionsStep(sections, SeenExpectationKinds(scan), scope, limit);
      DecidesInTurn(
        scan.progress, next.progress, ExpectationSectionsScan(next, sections[1..], scope, limit).progress,
        && ExpectationKind(sections[0]) !in SeenExpectationKinds(scan)
        && ExpectationSectionOk(sections[0], scope, limit),
        ExpectationSectionsOk(sections[1..], SeenExpectationKinds(next), scope, limit),
        SectionCaptureNames(sections[0]), SectionsCaptureNames(sections[1..]), scope);
    }
  }

  lemma ExpectationDecided(p: Progress, expectation: ExpectationAst, scope: set<string>, limit: nat)
    requires p.captures == {}
    ensures var q := ExpectationProgress(p, expectation, scope, limit);
            && Decides(p.errors, q.errors, ExpectationOk(expectation, scope, limit))
            && (|q.errors| == |p.errors| ==> q.captures == NameSet(SectionsCaptureNames(expectation.sections)))
  {
    var sections := expectation.sections;
    ExpectationSectionsDecided(ExpectationScan(p, false, false, false, {}), sections, scope, limit);
    assert scope + p.captures == scope;
    var kinds := ExpectationKindsOf(sections);
    assert FreshNames(kinds, {}) <==>
           forall i, j | 0 <= i < j < |sections| :: ExpectationKind(sections[i]) != ExpectationKind(sections[j]) by {
      assert forall i | 0 <= i < |kinds| :: kinds[i] == ExpectationKind(sections[i]);
    }
  }

  // ---- tests and suites ----

  lemma {:induction false} RepeatDecided(errors: Errors, count: nat, kind: ErrorKind)
    ensures Decides(errors, RepeatError(errors, count, kind), count <= 1)
    decreases count
  {
    if count > 1 {
      RepeatDecided(errors + [kind], count - 1, kind);
    }
  }

  lemma {:induction false} RequestsDecided(errors: Errors, requests: seq<RequestAst>, scope: set<string>, limit: nat)
    ensures Decides(errors, RequestsErrors(errors, requests, scope, limit),
                    forall i | 0 <= i < |requests| :: RequestOk(requests[i], scope, limit))
    decreases |requests|
  {
    if requests != [] {
      RequestDecided(errors, requests[0], scope, limit);
      RequestsDecided(RequestErrors(errors, requests[0], scope, limit), requests[1..], scope, limit);
      assert forall i | 1 <= i < |requests| :: requests[i] == requests[1..][i - 1];
      assert forall i | 0 <= i < |requests| - 1 :: requests[1..][i] == requests[i + 1];
    }
  }

  lemma {:induction false} ExpectationsGrow(
    p: Progress, expectations: seq<ExpectationAst>, scope: set<string>, limit: nat)
    ensures |p.errors| <= |ExpectationsProgress(p, expectations, scope, limit).errors|
    decreases |expectations|
  {
    if expectations != [] {
      ExpectationSectionsDecided(
        ExpectationScan(p, false, false, false, {}), expectations[0].sections, scope, limit);
      ExpectationsGrow(ExpectationProgress(p, expectations[0], scope, limit), expectations[1..], scope, limit);
    }
  }

  lemma CountsDecided(errors: Errors, test: TestAst)
    ensures Decides(errors, TestCountErrors(errors, test),
                    test.name != "" && |test.requests| == 1 && |test.expectations| == 1)
  {
    var named := AddIf(errors, test.name == "", EmptyTestName);
    var counted := AddIf(named, |test.requests| != 1, InvalidRequestCount);
    RepeatDecided(counted, |test.requests|, Duplicate(DupRequest));
    var requests := RepeatError(counted, |test.requests|, Duplicate(DupRequest));
    RepeatDecided(AddIf(requests, |test.expectations| != 1, InvalidExpectationCount), |test.expectations|,
                  Duplicate(DupExpectation));
  }

  lemma TestDecided(errors: Errors, test: TestAst, scope: set<string>, limit: nat)
    ensures var (after, grown) := TestProgress(errors, test, scope, limit);
            && Decides(errors, after, TestOk(test, scope, limit))
            && (|after| == |errors| ==> grown == ScopeAfter(test, scope))
  {
    var counted := TestCountErrors(errors, test);
    CountsDecided(errors, test);
    RequestsDecided(counted, test.requests, scope, limit);
    var requested := RequestsErrors(counted, test.requests, scope, limit);
    ExpectationsGrow(Progress(requested, {}), test.expectations, scope, limit);
    if |test.expectations| == 1 {
      ExpectationDecided(Progress(requested, {}), test.expectations[0], scope, limit);
      assert test.expectations[1..] == [];
      assert ExpectationsProgress(Progress(requested, {}), test.expectations, scope, limit)
             == ExpectationProgress(Progress(requested, {}), test.expectations[0], scope, limit);
    }
  }

  lemma {:induction false} ScopeBeforeTail(tests: seq<TestAst>, i: nat, scope: set<string>)
    requires i < |tests|
    ensures ScopeBefore(tests, i + 1, scope) == ScopeBefore(tests[1..], i, ScopeAfter(tests[0], scope))
  {
    if i > 0 {
      ScopeBeforeTail(tests, i - 1, scope);
    }
  }

  lemma {:induction false} TestsDecided(errors: Errors, tests: seq<TestAst>, scope: set<string>, limit: nat)
    ensures var (after, grown) := TestsProgress(errors, tests, scope, limit);
            && Decides(errors, after, TestsOk(tests, scope, limit))
            && (|after| == |errors| ==> grown == ScopeBefore(tests, |tests|, scope))
    decreases |tests|
  {
    hide TestOk;
    if tests != [] {
      var (next, grown) := TestProgress(errors, tests[0], scope, limit);
      var rest, later := tests[1..], ScopeAfter(tests[0], scope);
      TestDecided(errors, tests[0], scope, limit);
      TestsDecided(next, rest, grown, limit);
      ScopeBeforeTail(tests, |rest|, scope);
      assert TestsOk(tests, scope, limit) <==> TestOk(tests[0], scope, limit) && TestsOk(rest, later, limit) by {
        forall i | 0 <= i < |rest|
          ensures TestOk(tests[i + 1], ScopeBefore(tests, i + 1, scope), limit)
                  == TestOk(rest[i], ScopeBefore(rest, i, later), limit)
        {
          ScopeBeforeTail(tests, i, scope);
        }
        assert ScopeBefore(tests, 0, scope) == scope;
        if TestOk(tests[0], scope, limit) && TestsOk(rest, later, limit) {
          forall i | 0 <= i < |tests| ensures TestOk(tests[i], ScopeBefore(tests, i, scope), limit) {
            if i > 0 {
              var k := i - 1;
              assert TestOk(rest[k], ScopeBefore(rest, k, later), limit);
            }
          }
        }
      }
    }
  }

  lemma {:induction false} CoresDecided(errors: Errors, blocks: seq<BlockAst>, seen: bool)
    ensures Decides(errors, CoreErrors(errors, blocks, seen),
                    AtMostOneCore(blocks) && (seen ==> forall i | 0 <= i < |blocks| :: !blocks[i].CoreAst?))
    decreases |blocks|
  {
    if blocks != [] {
      var rest := blocks[1..];
      assert forall i | 0 <= i < |rest| :: rest[i] == blocks[i + 1];
      assert forall i | 1 <= i < |blocks| :: blocks[i] == rest[i - 1];
      if blocks[0].CoreAst? {
        CoresDecided(AddIf(errors, seen, Duplicate(DupCoreBlock)), rest, true);
      } else {
        CoresDecided(errors, rest, seen);
      }
    }
  }

  lemma BlockDecided(
    errors: Errors, block: BlockAst, predefined: set<string>, afterCore: set<string>, limit: nat)
    ensures Decides(errors, BlockErrors(errors, block, predefined, afterCore, limit),
                    BlockOk(block, predefined, afterCore, limit))
  {
    match block
    case CoreAst(tests) => TestsDecided(errors, tests, predefined, limit);
    case PipelineAst(name, tests) =>
      TestsDecided(AddIf(AddIf(errors, name == "", EmptyPipelineName), tests == [], EmptyPipeline), tests, afterCore,
                   limit);
    case StandaloneAst(test) => TestDecided(errors, test, afterCore, limit);
  }

  lemma {:induction false} BlocksDecided(
    errors: Errors, blocks: seq<BlockAst>, i: nat, firstCore: Option<nat>, predefined: set<string>,
    afterCore: set<string>, limit: nat)
    requires i <= |blocks|
    ensures Decides(
              errors, BlocksErrorsFrom(errors, blocks, i, firstCore, predefined, afterCore, limit),
              forall k | i <= k < |blocks| :: Some(k) == firstCore || BlockOk(blocks[k], predefined, afterCore, limit))
    decreases |blocks| - i
  {
    hide BlockOk;
    hide BlockErrors;
    if i < |blocks| {
      BlockDecided(errors, blocks[i], predefined, afterCore, limit);
      var next :=
        if Some(i) == firstCore then errors else BlockErrors(errors, blocks[i], predefined, afterCore, limit);
      BlocksDecided(next, blocks, i + 1, firstCore, predefined, afterCore, limit);
    }
  }

  /** Validation accepts exactly the well-formed suites, whose scopes are given by their declared captures. */
  lemma ValidationIsExact(ast: SuiteAst, predefined: set<string>, limit: nat)
    ensures SuiteErrors(ast, predefined, limit) == [] <==> SuiteOk(ast, predefined, limit)
  {
    hide TestsOk;
    var firstCore := FirstCore(ast.blocks, 0);
    var counted := CoreErrors([], ast.blocks, false);
    CoresDecided([], ast.blocks, false);
    if firstCore.Some? {
      TestsDecided(counted, ast.blocks[firstCore.value].tests, predefined, limit);
      var (coreErrors, afterCore) := TestsProgress(counted, ast.blocks[firstCore.value].tests, predefined, limit);
      BlocksDecided(coreErrors, ast.blocks, 0, firstCore, predefined, afterCore, limit);
    } else {
      BlocksDecided(counted, ast.blocks, 0, firstCore, predefined, predefined, limit);
    }
  }
}
