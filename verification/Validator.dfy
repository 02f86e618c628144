/** The validator itself, crates/rettp-parser/src/semantic/validator.rs:26-481. */
module Validation {
  import opened Wrappers
  import opened Text
  import opened IndexMap
  import opened JsonValues
  import opened Expectation
  import opened Domain
  import opened Ast
  import opened Template
  import opened ValidationSpec

  class Validator {
    var errors: Errors
    const maxDepth: nat

    constructor (maxDepth: nat)
      ensures errors == [] && this.maxDepth == maxDepth
    {
      errors := [];
      this.maxDepth := maxDepth;
    }

    method Error(kind: ErrorKind)
      modifies this
      ensures errors == old(errors) + [kind]
    {
      errors := errors + [kind];
    }

    method EnterDepth(depth: nat) returns (entered: bool)
      modifies this
      ensures entered == (depth < maxDepth)
      ensures errors == AddIf(old(errors), !entered, NestingLimitExceeded(maxDepth))
    {
      if depth >= maxDepth {
        Error(NestingLimitExceeded(maxDepth));
        return false;
      }
      return true;
    }

    method ValidateName(name: string, kind: DuplicateKind, names: set<string>) returns (grown: set<string>)
      modifies this
      ensures errors == NameErrors(old(errors), name, kind, names) && grown == names + {name}
    {
      if name == "" {
        Error(EmptyNameOf(kind));
      }
      if name in names {
        Error(DuplicateNamed(kind, name));
      }
      grown := names + {name};
    }

    method ValidateHeaderName(name: string, kind: DuplicateKind, names: set<string>) returns (grown: set<string>)
      modifies this
      ensures errors == HeaderNameErrors(old(errors), name, kind, names) && grown == names + {Lower(name)}
    {
      if name == "" {
        Error(EmptyNameOf(kind));
      }
      if Lower(name) in names {
        Error(DuplicateNamed(kind, name));
      }
      grown := names + {Lower(name)};
    }

    method ValidateInterpolation(raw: string, scope: set<string>)
      modifies this
      ensures errors == TextErrors(old(errors), raw, scope)
    {
      var scanned := VariableNames(raw);
      match scanned
      case Err(EmptyName) => Error(EmptyInterpolation);
      case Err(Unterminated) => Error(UnterminatedInterpolation);
      case Ok(names) =>
        var i := 0;
        while i < |names|
          invariant i <= |names|
          invariant VariableErrors(errors, names[i..], scope) == VariableErrors(old(errors), names, scope)
        {
          assert names[i..][1..] == names[i + 1..];
          if !ValidVariableName(names[i]) {
            Error(ErrorKind.InvalidVariableName(names[i]));
          } else if names[i] !in scope {
            Error(UndefinedVariable(names[i]));
          }
          i := i + 1;
        }
    }

    method ValidateValue(value: ValueAst, scope: set<string>, depth: nat)
      modifies this
      ensures errors == ValueErrors(old(errors), value, scope, depth, maxDepth)
      decreases value
    {
      match value
      case StringAst(raw) => ValidateInterpolation(raw, scope);
      case ArrayAst(items) =>
        var entered := EnterDepth(depth);
        if !entered {
          return;
        }
        var i := 0;
        while i < |items|
          invariant i <= |items|
          invariant ItemsErrors(errors, items[i..], scope, depth + 1, maxDepth)
                 == ItemsErrors(old(errors), items, scope, depth + 1, maxDepth)
        {
          assert items[i..][1..] == items[i + 1..];
          ValidateValue(items[i], scope, depth + 1);
          i := i + 1;
        }
      case ObjectAst(entries) =>
        var entered := EnterDepth(depth);
        if !entered {
          return;
        }
        var _ := ValidateEntries(entries, scope, depth + 1, DupObjectKey, {});
      case _ =>
    }

    method ValidateEntries(
      entries: Entries<ValueAst>, scope: set<string>, depth: nat, kind: DuplicateKind, names: set<string>)
      returns (grown: set<string>)
      modifies this
      ensures errors == EntriesErrors(old(errors), entries, scope, depth, kind, names, maxDepth)
      ensures grown == names + Keys(entries)
      decreases entries
    {
      grown := names;
      var i := 0;
      while i < |entries|
        invariant i <= |entries|
        invariant grown == names + Keys(entries[..i])
        invariant EntriesErrors(errors, entries[i..], scope, depth, kind, grown, maxDepth)
               == EntriesErrors(old(errors), entries, scope, depth, kind, names, maxDepth)
      {
        assert entries[i..][1..] == entries[i + 1..];
        assert entries[..i + 1] == entries[..i] + [entries[i]];
        KeysAppend(entries[..i], [entries[i]]);
        KeysCons(entries[i], []);
        assert [entries[i]] + [] == [entries[i]];
        grown := ValidateName(entries[i].0, kind, grown);
        ValidateEntry(entries[i], scope, depth);
        i := i + 1;
      }
      assert entries[..i] == entries;
    }

    method ValidateEntry(entry: (string, ValueAst), scope: set<string>, depth: nat)
      modifies this
      ensures errors == EntryErrors(old(errors), entry, scope, depth, maxDepth)
      decreases entry
    {
      ValidateValue(entry.1, scope, depth);
    }

    method ValidateRequestHeaders(entries: Entries<ValueAst>, scope: set<string>, names: set<string>)
      returns (grown: set<string>)
      modifies this
      ensures errors == RequestHeadersErrors(old(errors), entries, scope, names, maxDepth)
      ensures grown == names + LowerKeys(entries)
    {
      grown := names;
      var i := 0;
      while i < |entries|
        invariant i <= |entries|
        invariant grown == names + LowerKeys(entries[..i])
        invariant RequestHeadersErrors(errors, entries[i..], scope, grown, maxDepth)
               == RequestHeadersErrors(old(errors), entries, scope, names, maxDepth)
      {
        assert entries[i..][1..] == entries[i + 1..];
        assert LowerKeys(entries[..i + 1]) == LowerKeys(entries[..i]) + {Lower(entries[i].0)} by {
          LowerKeysGrow(entries, i);
        }
        grown := ValidateHeaderName(entries[i].0, DupRequestHeader, grown);
        ValidateValue(entries[i].1, scope, 0);
        i := i + 1;
      }
      assert entries[..i] == entries;
    }

    method ValidateRequest(request: RequestAst, scope: set<string>)
      modifies this
      ensures errors == RequestErrors(old(errors), request, scope, maxDepth)
    {
      if request.path == "" {
        Error(EmptyRequestPath);
      }
      ValidateInterpolation(request.path, scope);
      var sawHeaders, sawQuery, sawBody := false, false, false;
      var headerNames, queryNames := {}, {};
      ghost var start := RequestScan(errors, false, false, false, {}, {});
      var i := 0;
      while i < |request.sections|
        invariant i <= |request.sections|
        invariant SectionsScan(
                    RequestScan(errors, sawHeaders, sawQuery, sawBody, headerNames, queryNames),
                    request.verb, request.sections[i..], scope, maxDepth)
               == SectionsScan(start, request.verb, request.sections, scope, maxDepth)
      {
        assert request.sections[i..][1..] == request.sections[i + 1..];
        match request.sections[i] {
          case RequestHeaders(entries) =>
            if sawHeaders {
              Error(Duplicate(DupRequestHeaders));
            }
            sawHeaders := true;
            headerNames := ValidateRequestHeaders(entries, scope, headerNames);
          case RequestQuery(entries) =>
            if sawQuery {
              Error(Duplicate(DupRequestQuery));
            }
            sawQuery := true;
            queryNames := ValidateEntries(entries, scope, 0, DupQueryParameter, queryNames);
          case RequestBodySection(entries) =>
            if sawBody {
              Error(Duplicate(DupRequestBody));
            }
            sawBody := true;
            if !MethodAllowsBody(request.verb) {
              Error(RequestBodyNotAllowed(request.verb));
            }
            ValidateValue(ObjectAst(entries), scope, 0);
        }
        i := i + 1;
      }
    }

    method ValidateField(field: FieldAssertionAst, scope: set<string>, captures: set<string>, depth: nat)
      returns (grown: set<string>)
      modifies this
      ensures Progress(errors, grown) == FieldProgress(Progress(old(errors), captures), field, scope, depth, maxDepth)
      decreases field, 1
    {
      grown := captures;
      ValidateFieldHead(field, scope, depth);
      if field.nested.Some? {
        if field.expectedType != Some(TObject) {
          Error(NestedAssertionRequiresObject(field.name));
        }
        if field.nested.value.mode != MatchPartial {
          Error(NestedAssertionMustBePartial(field.name));
        }
        grown := ValidateAssertion(field.nested.value, scope, grown, depth);
      }
      grown := ValidateCapture(field, scope, grown);
    }

    method ValidateFieldHead(field: FieldAssertionAst, scope: set<string>, depth: nat)
      modifies this
      ensures errors == FieldHeadErrors(old(errors), field, scope, depth, maxDepth)
    {
      if field.expectedType.None? && field.expectedValue.None? && field.nested.None? {
        Error(MissingFieldAssertion(field.name));
      }
      if field.expectedValue.Some? {
        var value := field.expectedValue.value;
        if field.expectedType.Some? && !TypeAccepts(field.expectedType.value, value) {
          Error(TypeValueMismatch(field.name, field.expectedType.value, InferType(value)));
        }
        ValidateValue(value, scope, depth);
      }
    }

    method ValidateCapture(field: FieldAssertionAst, scope: set<string>, captures: set<string>)
      returns (grown: set<string>)
      modifies this
      ensures Progress(errors, grown) == CaptureProgress(Progress(old(errors), captures), field, scope)
    {
      grown := captures;
      if field.capture.Some? {
        var name := field.capture.value;
        if field.expectedType.None? {
          Error(CaptureRequiresType(name));
        }
        if !ValidVariableName(name) {
          Error(ErrorKind.InvalidVariableName(name));
        } else if name in scope || name in captures {
          Error(DuplicateVariable(name));
        } else {
          grown := grown + {name};
        }
      }
    }

    method ValidateAssertion(a: ObjectAssertionAst, scope: set<string>, captures: set<string>, depth: nat)
      returns (grown: set<string>)
      modifies this
      ensures Progress(errors, grown) == AssertionProgress(Progress(old(errors), captures), a, scope, depth, maxDepth)
      decreases a, 1
    {
      grown := captures;
      var entered := EnterDepth(depth);
      if !entered {
        return;
      }
      var fields: set<string> := {};
      var i := 0;
      while i < |a.fields|
        invariant i <= |a.fields|
        invariant FieldsProgress(Progress(errors, grown), a, i, fields, scope, depth + 1, maxDepth)
               == FieldsProgress(Progress(old(errors), captures), a, 0, {}, scope, depth + 1, maxDepth)
      {
        fields := ValidateName(a.fields[i].name, DupAssertionField, fields);
        grown := ValidateField(a.fields[i], scope, grown, depth + 1);
        i := i + 1;
      }
    }

    method ValidateResponseHeaders(entries: seq<ResponseHeaderAst>, scope: set<string>, names: set<string>)
      returns (grown: set<string>)
      modifies this
      ensures errors == ResponseHeadersErrors(old(errors), entries, scope, names)
      ensures grown == names + LowerNames(entries)
    {
      grown := names;
      var i := 0;
      while i < |entries|
        invariant i <= |entries|
        invariant grown == names + LowerNames(entries[..i])
        invariant ResponseHeadersErrors(errors, entries[i..], scope, grown)
               == ResponseHeadersErrors(old(errors), entries, scope, names)
      {
        assert entries[i..][1..] == entries[i + 1..];
        assert LowerNames(entries[..i + 1]) == LowerNames(entries[..i]) + {Lower(entries[i].name)} by {
          LowerNamesGrow(entries, i);
        }
        grown := ValidateHeaderName(entries[i].name, DupResponseHeader, grown);
        if !entries[i].ExistsAst? {
          ValidateInterpolation(entries[i].text, scope);
        }
        i := i + 1;
      }
      assert entries[..i] == entries;
    }

    method ValidateExpectation(expectation: ExpectationAst, scope: set<string>, captures: set<string>)
      returns (grown: set<string>)
      modifies this
      ensures Progress(errors, grown)
           == ExpectationProgress(Progress(old(errors), captures), expectation, scope, maxDepth)
    {
      grown := captures;
      var sawStatus, sawHeaders, sawBody := false, false, false;
      var headerNames: set<string> := {};
      var i := 0;
      while i < |expectation.sections|
        invariant i <= |expectation.sections|
        invariant ExpectationSectionsScan(
                    ExpectationScan(Progress(errors, grown), sawStatus, sawHeaders, sawBody, headerNames),
                    expectation.sections[i..], scope, maxDepth).progress
               == ExpectationProgress(Progress(old(errors), captures), expectation, scope, maxDepth)
      {
        assert expectation.sections[i..][1..] == expectation.sections[i + 1..];
        match expectation.sections[i] {
          case StatusSection(status) =>
            if sawStatus {
              Error(Duplicate(DupResponseStatus));
            }
            sawStatus := true;
            if !(100 <= status <= 599) {
              Error(InvalidHttpStatus(status));
            }
          case HeadersSection(entries) =>
            if sawHeaders {
              Error(Duplicate(DupResponseHeaders));
            }
            sawHeaders := true;
            headerNames := ValidateResponseHeaders(entries, scope, headerNames);
          case BodySection(body) =>
            if sawBody {
              Error(Duplicate(DupResponseBody));
            }
            sawBody := true;
            match body {
              case EmptyBody =>
              case ObjectBody(shape) => grown := ValidateAssertion(shape, scope, grown, 0);
              case _ => ValidateInterpolation(body.text, scope);
            }
        }
        i := i + 1;
      }
    }

    method Repeat(count: nat, kind: ErrorKind)
      modifies this
      ensures errors == RepeatError(old(errors), count, kind)
    {
      var i := count;
      while i > 1
        invariant RepeatError(errors, i, kind) == RepeatError(old(errors), count, kind)
      {
        Error(kind);
        i := i - 1;
      }
    }

    method ValidateTest(test: TestAst, scope: set<string>) returns (grown: set<string>)
      modifies this
      ensures (errors, grown) == TestProgress(old(errors), test, scope, maxDepth)
    {
      if test.name == "" {
        Error(EmptyTestName);
      }
      if |test.requests| != 1 {
        Error(InvalidRequestCount);
      }
      Repeat(|test.requests|, Duplicate(DupRequest));
      if |test.expectations| != 1 {
        Error(InvalidExpectationCount);
      }
      Repeat(|test.expectations|, Duplicate(DupExpectation));
      ghost var counted := errors;
      var i := 0;
      while i < |test.requests|
        invariant i <= |test.requests|
        invariant RequestsErrors(errors, test.requests[i..], scope, maxDepth)
               == RequestsErrors(counted, test.requests, scope, maxDepth)
      {
        assert test.requests[i..][1..] == test.requests[i + 1..];
        ValidateRequest(test.requests[i], scope);
        i := i + 1;
      }
      ghost var requested := errors;
      var captures: set<string> := {};
      i := 0;
      while i < |test.expectations|
        invariant i <= |test.expectations|
        invariant ExpectationsProgress(Progress(errors, captures), test.expectations[i..], scope, maxDepth)
               == ExpectationsProgress(Progress(requested, {}), test.expectations, scope, maxDepth)
      {
        assert test.expectations[i..][1..] == test.expectations[i + 1..];
        captures := ValidateExpectation(test.expectations[i], scope, captures);
        i := i + 1;
      }
      grown := scope + captures;
    }

    method ValidateTests(tests: seq<TestAst>, scope: set<string>) returns (grown: set<string>)
      modifies this
      ensures (errors, grown) == TestsProgress(old(errors), tests, scope, maxDepth)
    {
      grown := scope;
      var i := 0;
      while i < |tests|
        invariant i <= |tests|
        invariant TestsProgress(errors, tests[i..], grown, maxDepth) == TestsProgress(old(errors), tests, scope, maxDepth)
      {
        assert tests[i..][1..] == tests[i + 1..];
        grown := ValidateTest(tests[i], grown);
        i := i + 1;
      }
    }

    method CountCores(blocks: seq<BlockAst>) returns (firstCore: Option<nat>)
      modifies this
      ensures errors == CoreErrors(old(errors), blocks, false) && firstCore == FirstCore(blocks, 0)
    {
      firstCore := None;
      var i := 0;
      while i < |blocks|
        invariant i <= |blocks|
        invariant CoreErrors(errors, blocks[i..], firstCore.Some?) == CoreErrors(old(errors), blocks, false)
        invariant FirstCore(blocks, 0) == if firstCore.Some? then firstCore else FirstCore(blocks, i)
      {
        assert blocks[i..][1..] == blocks[i + 1..];
        if blocks[i].CoreAst? {
          if firstCore.Some? {
            Error(Duplicate(DupCoreBlock));
          } else {
            firstCore := Some(i);
          }
        }
        i := i + 1;
      }
    }

    /** The body of the loop over blocks, for all but the first core. */
    method ValidateBlock(block: BlockAst, predefined: set<string>, globalWithCore: set<string>)
      modifies this
      ensures errors == BlockErrors(old(errors), block, predefined, globalWithCore, maxDepth)
    {
      match block
      case CoreAst(tests) =>
        var _ := ValidateTests(tests, predefined);
      case PipelineAst(name, tests) =>
        if name == "" {
          Error(EmptyPipelineName);
        }
        if tests == [] {
          Error(EmptyPipeline);
        }
        var _ := ValidateTests(tests, globalWithCore);
      case StandaloneAst(test) =>
        var _ := ValidateTest(test, globalWithCore);
    }

    method ValidateSuite(ast: SuiteAst, predefined: set<string>)
      requires errors == []
      modifies this
      ensures errors == SuiteErrors(ast, predefined, maxDepth)
    {
      var firstCore := CountCores(ast.blocks);
      var globalWithCore := predefined;
      if firstCore.Some? {
        globalWithCore := ValidateTests(ast.blocks[firstCore.value].tests, globalWithCore);
      }
      ghost var before := errors;
      var i := 0;
      while i < |ast.blocks|
        invariant i <= |ast.blocks|
        invariant BlocksErrorsFrom(errors, ast.blocks, i, firstCore, predefined, globalWithCore, maxDepth)
               == BlocksErrorsFrom(before, ast.blocks, 0, firstCore, predefined, globalWithCore, maxDepth)
      {
        if Some(i) != firstCore {
          ValidateBlock(ast.blocks[i], predefined, globalWithCore);
        }
        i := i + 1;
      }
    }
  }

  lemma LowerKeysGrow(entries: Entries<ValueAst>, i: nat)
    requires i < |entries|
    ensures LowerKeys(entries[..i + 1]) == LowerKeys(entries[..i]) + {Lower(entries[i].0)}
  {
    var more, less := entries[..i + 1], entries[..i];
    assert forall k | 0 <= k < i :: more[k] == less[k];
    assert more[i] == entries[i];
  }

  lemma LowerNamesGrow(entries: seq<ResponseHeaderAst>, i: nat)
    requires i < |entries|
    ensures LowerNames(entries[..i + 1]) == LowerNames(entries[..i]) + {Lower(entries[i].name)}
  {
    var more, less := entries[..i + 1], entries[..i];
    assert forall k | 0 <= k < i :: more[k] == less[k];
    assert more[i] == entries[i];
  }

  /** `validate`: all diagnostics of a suite, in order. */
  method Validate(ast: SuiteAst, predefined: set<string>, maxDepth: nat) returns (errors: Errors)
    ensures errors == SuiteErrors(ast, predefined, maxDepth)
  {
    var validator := new Validator(maxDepth);
    validator.ValidateSuite(ast, predefined);
    errors := validator.errors;
  }
}
