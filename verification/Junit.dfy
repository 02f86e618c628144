/** The JUnit report, crates/rettp-reporter/src/junit.rs: its counts are those of its own elements. */
module Junit {
  import opened Wrappers
  import opened AssertionSpec
  import opened Execution
  import opened Variables

  datatype ReportFailure = ReportFailure(
    path: string, kind: FailureKind, message: string, expected: Option<string>, actual: Option<string>)

  datatype ReportError = ReportError(kind: ErrorKind, message: string)

  datatype ReportTest = ReportTest(
    name: string, status: Status, durationMs: nat, failures: seq<ReportFailure>, error: Option<ReportError>)

  datatype ReportBlockKind = CoreKind | PipelineKind | TestKind

  datatype ReportBlock = ReportBlock(kind: ReportBlockKind, name: Option<string>, durationMs: nat, tests: seq<ReportTest>)

  datatype RunReport = RunReport(
    source: string, name: Option<string>, durationMs: nat, blocks: seq<ReportBlock>, error: Option<ReportError>)

  // ---- escaping ----

  predicate IsXmlCharacter(c: char) {
    || c == '\t' || c == '\n' || c == '\r'
    || 0x20 <= c as int <= 0xd7ff || 0xe000 <= c as int <= 0xfffd || 0x1_0000 <= c as int <= 0x10_ffff
  }

  /** The entity name that stands for a character. */
  function EntityOf(c: char, attribute: bool): Option<string> {
    if c == '&' then Some("amp")
    else if c == '<' then Some("lt")
    else if c == '>' then Some("gt")
    else if c == '"' && attribute then Some("quot")
    else if c == '\'' && attribute then Some("apos")
    else None
  }

  function EscapedChar(c: char, attribute: bool): string {
    var entity := EntityOf(c, attribute);
    if entity.Some? then "&" + entity.value + ";" else if IsXmlCharacter(c) then [c] else "\U{FFFD}"
  }

  function Escaped(value: string, attribute: bool): string {
    if value == "" then "" else Escaped(value[..|value| - 1], attribute) + EscapedChar(value[|value| - 1], attribute)
  }

  method Escape(value: string, attribute: bool) returns (escaped: string)
    ensures escaped == Escaped(value, attribute)
  {
    escaped := "";
    var i := 0;
    while i < |value|
      invariant i <= |value| && escaped == Escaped(value[..i], attribute)
    {
      assert value[..i + 1][..i] == value[..i];
      escaped := escaped + EscapedChar(value[i], attribute);
      i := i + 1;
    }
    assert value[..|value|] == value;
  }

  // ---- lines of the document ----

  datatype Line =
    | Open(indent: string, element: string, attributes: seq<(string, string)>, ending: string)
    | Close(indent: string, element: string)
    | Raw(text: string)

  function AttributesText(attributes: seq<(string, string)>): string {
    if attributes == [] then ""
    else " " + (attributes[0].0 + "=\"" + attributes[0].1 + "\"") + AttributesText(attributes[1..])
  }

  function LineText(line: Line): string {
    match line
    case Open(indent, element, attributes, ending) =>
      indent + "<" + (element + AttributesText(attributes) + ending) + "\n"
    case Close(indent, element) => indent + "<" + ("/" + element + ">") + "\n"
    case Raw(text) => text + "\n"
  }

  function LinesText(lines: seq<Line>): string {
    if lines == [] then "" else LinesText(lines[..|lines| - 1]) + LineText(lines[|lines| - 1])
  }

  lemma {:induction false} LinesTextAppend(a: seq<Line>, b: seq<Line>)
    ensures LinesText(a + b) == LinesText(a) + LinesText(b)
  {
    hide LineText;
    if b == [] {
      assert a + b == a;
    } else {
      LinesTextAppend(a, b[..|b| - 1]);
      assert (a + b)[..|a + b| - 1] == a + b[..|b| - 1];
    }
  }

  function Attribute(value: string): string {
    Escaped(value, true)
  }

  function Seconds(durationMs: nat): string {
    var rest := durationMs % 1000;
    NatText(durationMs / 1000) + "."
    + (if rest < 10 then "00" else if rest < 100 then "0" else "") + NatText(rest)
  }

  function ErrorKindText(kind: ErrorKind): string {
    match kind
    case InvalidRequestError => "invalid_request"
    case ConnectionError => "connection"
    case TimeoutError => "timeout"
    case InvalidResponseError => "invalid_response"
    case VariableResolution => "variable_resolution"
    case DependencyFailed => "dependency_failed"
    case Internal => "internal"
  }

  function FailureKindText(kind: FailureKind): string {
    match kind
    case MissingField => "missing_field"
    case TypeMismatch => "type_mismatch"
    case ValueMismatch => "value_mismatch"
    case UnexpectedField => "unexpected_field"
    case StatusMismatch => "status_mismatch"
    case HeaderMismatch => "header_mismatch"
    case InvalidBody => "invalid_body"
  }

  // ---- counts ----

  const U64_MAX: nat := 0xffff_ffff_ffff_ffff

  function SaturatingAdd(a: nat, b: nat): nat {
    if a + b > U64_MAX then U64_MAX else a + b
  }

  datatype Counts = Counts(tests: nat, failures: nat, errors: nat, skipped: nat) {
    function Plus(other: Counts): Counts {
      Counts(SaturatingAdd(tests, other.tests), SaturatingAdd(failures, other.failures),
             SaturatingAdd(errors, other.errors), SaturatingAdd(skipped, other.skipped))
    }
  }

  const NO_COUNTS := Counts(0, 0, 0, 0)

  datatype Outcome = PassedOutcome | SkippedOutcome | FailureOutcome | ErrorOutcome

  /** How a test is rendered and counted. */
  function OutcomeOf(test: ReportTest): Outcome {
    match test.status
    case Passed => PassedOutcome
    case Skipped => SkippedOutcome
    case Failed => if test.error.None? && test.failures != [] then FailureOutcome else ErrorOutcome
    case Aborted => ErrorOutcome
  }

  function TestCounts(test: ReportTest): Counts {
    match OutcomeOf(test)
    case PassedOutcome => Counts(1, 0, 0, 0)
    case SkippedOutcome => Counts(1, 0, 0, 1)
    case FailureOutcome => Counts(1, 1, 0, 0)
    case ErrorOutcome => Counts(1, 0, 1, 0)
  }

  function BlockCounts(tests: seq<ReportTest>): Counts {
    if tests == [] then NO_COUNTS else BlockCounts(tests[..|tests| - 1]).Plus(TestCounts(tests[|tests| - 1]))
  }

  function ReportCounts(blocks: seq<ReportBlock>): Counts {
    if blocks == [] then NO_COUNTS
    else ReportCounts(blocks[..|blocks| - 1]).Plus(BlockCounts(blocks[|blocks| - 1].tests))
  }

  method CountBlock(block: ReportBlock) returns (counts: Counts)
    ensures counts == BlockCounts(block.tests)
  {
    counts := NO_COUNTS;
    var i := 0;
    while i < |block.tests|
      invariant i <= |block.tests| && counts == BlockCounts(block.tests[..i])
    {
      assert block.tests[..i + 1][..i] == block.tests[..i];
      var test := block.tests[i];
      counts := counts.(tests := SaturatingAdd(counts.tests, 1));
      match OutcomeOf(test) {
        case PassedOutcome =>
        case SkippedOutcome => counts := counts.(skipped := SaturatingAdd(counts.skipped, 1));
        case FailureOutcome => counts := counts.(failures := SaturatingAdd(counts.failures, 1));
        case ErrorOutcome => counts := counts.(errors := SaturatingAdd(counts.errors, 1));
      }
      CountsAreBounded(block.tests[..i]);
      i := i + 1;
    }
    assert block.tests[..|block.tests|] == block.tests;
  }

  lemma {:induction false} CountsAreBounded(tests: seq<ReportTest>)
    ensures var c := BlockCounts(tests);
            c.tests <= U64_MAX && c.failures <= U64_MAX && c.errors <= U64_MAX && c.skipped <= U64_MAX
  {
  }

  method CountReport(report: RunReport) returns (total: Counts)
    ensures total == ReportCounts(report.blocks)
  {
    total := NO_COUNTS;
    var i := 0;
    while i < |report.blocks|
      invariant i <= |report.blocks| && total == ReportCounts(report.blocks[..i])
    {
      assert report.blocks[..i + 1][..i] == report.blocks[..i];
      var counts := CountBlock(report.blocks[i]);
      total := total.Plus(counts);
      i := i + 1;
    }
    assert report.blocks[..|report.blocks|] == report.blocks;
  }

  /** The counts in the root element, which include the synthetic test of a suite-level error. */
  function RootCounts(report: RunReport): Counts {
    var counts := ReportCounts(report.blocks);
    var synthetic := if report.error.Some? then 1 else 0;
    counts.(tests := SaturatingAdd(counts.tests, synthetic), errors := SaturatingAdd(counts.errors, synthetic))
  }

  // ---- the document ----

  function CountAttributes(counts: Counts): seq<(string, string)> {
    [("tests", NatText(counts.tests)), ("failures", NatText(counts.failures)), ("errors", NatText(counts.errors)),
     ("skipped", NatText(counts.skipped))]
  }

  function FailureLines(failure: ReportFailure): seq<Line> {
    [Raw(Escaped(failure.path, false) + " [" + FailureKindText(failure.kind) + "]: " + Escaped(failure.message, false))]
    + (if failure.expected.Some? then [Raw("expected: " + Escaped(failure.expected.value, false))] else [])
    + (if failure.actual.Some? then [Raw("actual: " + Escaped(failure.actual.value, false))] else [])
  }

  function FailuresLines(failures: seq<ReportFailure>): seq<Line> {
    if failures == [] then [] else FailuresLines(failures[..|failures| - 1]) + FailureLines(failures[|failures| - 1])
  }

  function OutcomeLines(test: ReportTest): seq<Line> {
    match OutcomeOf(test)
    case PassedOutcome => []
    case SkippedOutcome =>
      var message := if test.error.Some? then test.error.value.message else "dependency failed";
      [Open("      ", "skipped", [("message", Attribute(message))], " />")]
    case FailureOutcome =>
      [Open("      ", "failure", [("type", "assertion"), ("message", NatText(|test.failures|) + " assertion failure(s)")], ">")]
      + FailuresLines(test.failures)
      + [Close("      ", "failure")]
    case ErrorOutcome =>
      var kind := if test.error.Some? then ErrorKindText(test.error.value.kind) else "internal";
      var message := if test.error.Some? then test.error.value.message else "test execution failed";
      [Open("      ", "error", [("type", Attribute(kind)), ("message", Attribute(message))], " />")]
  }

  function TestLines(className: string, test: ReportTest): seq<Line> {
    [Open("    ", "testcase",
          [("classname", Attribute(className)), ("name", Attribute(test.name)), ("time", Seconds(test.durationMs))], ">")]
    + OutcomeLines(test)
    + [Close("    ", "testcase")]
  }

  function TestsLines(className: string, tests: seq<ReportTest>): seq<Line> {
    if tests == [] then []
    else TestsLines(className, tests[..|tests| - 1]) + TestLines(className, tests[|tests| - 1])
  }

  function SuiteName(block: ReportBlock): string {
    var name := if block.name.Some? then block.name.value else "unnamed";
    match block.kind
    case CoreKind => "core"
    case PipelineKind => "pipeline:" + name
    case TestKind => "test:" + name
  }

  function BlockLines(block: ReportBlock): seq<Line> {
    [Open("  ", "testsuite",
          [("name", Attribute(SuiteName(block)))] + CountAttributes(BlockCounts(block.tests))
          + [("time", Seconds(block.durationMs))], ">")]
    + TestsLines(SuiteName(block), block.tests)
    + [Close("  ", "testsuite")]
  }

  function BlocksLines(blocks: seq<ReportBlock>): seq<Line> {
    if blocks == [] then [] else BlocksLines(blocks[..|blocks| - 1]) + BlockLines(blocks[|blocks| - 1])
  }

  function SyntheticLines(error: Option<ReportError>): seq<Line> {
    if error.None? then []
    else
      [Open("  ", "testsuite", [("name", "rettp")] + CountAttributes(Counts(1, 0, 1, 0)) + [("time", "0.000")], ">"),
       Open("    ", "testcase", [("name", "suite"), ("time", "0.000")], ">"),
       Open("      ", "error",
            [("type", ErrorKindText(error.value.kind)), ("message", Attribute(error.value.message))], " />"),
       Close("    ", "testcase"),
       Close("  ", "testsuite")]
  }

  /** The root element. */
  function RootLine(report: RunReport): Line {
    var name := if report.name.Some? then report.name.value else report.source;
    Open("", "testsuites",
         [("name", Attribute(name))] + CountAttributes(RootCounts(report)) + [("time", Seconds(report.durationMs))], ">")
  }

  function ReportLines(report: RunReport): seq<Line> {
    [Open("", "?xml", [("version", "1.0"), ("encoding", "UTF-8")], "?>"), RootLine(report)]
    + BlocksLines(report.blocks)
    + SyntheticLines(report.error)
    + [Close("", "testsuites")]
  }

  // ---- rendering; the output buffer is kept as the list of the lines written to it ----

  method RenderFailure(output: seq<Line>, failure: ReportFailure) returns (rendered: seq<Line>)
    ensures rendered == output + FailureLines(failure)
  {
    hide Escaped;
    hide FailureKindText;
    var path := Escape(failure.path, false);
    var message := Escape(failure.message, false);
    rendered := output + [Raw(path + " [" + FailureKindText(failure.kind) + "]: " + message)];
    if failure.expected.Some? {
      var expected := Escape(failure.expected.value, false);
      rendered := rendered + [Raw("expected: " + expected)];
    }
    if failure.actual.Some? {
      var actual := Escape(failure.actual.value, false);
      rendered := rendered + [Raw("actual: " + actual)];
    }
  }

  method RenderTest(output: seq<Line>, className: string, test: ReportTest) returns (rendered: seq<Line>)
    ensures rendered == output + TestLines(className, test)
  {
    hide Escaped;
    hide FailureLines;
    hide Seconds;
    hide ErrorKindText;
    var class_ := Escape(className, true);
    var name := Escape(test.name, true);
    var head := Open(
      "    ", "testcase", [("classname", class_), ("name", name), ("time", Seconds(test.durationMs))], ">");
    rendered := RenderOutcome(output + [head], test);
    rendered := rendered + [Close("    ", "testcase")];
    assert output + [head] + OutcomeLines(test) + [Close("    ", "testcase")] == output + TestLines(className, test);
  }

  method RenderOutcome(output: seq<Line>, test: ReportTest) returns (rendered: seq<Line>)
    ensures rendered == output + OutcomeLines(test)
  {
    hide Escaped;
    hide FailureLines;
    hide ErrorKindText;
    match OutcomeOf(test)
    case PassedOutcome =>
      rendered := output;
    case SkippedOutcome =>
      var message := Escape(if test.error.Some? then test.error.value.message else "dependency failed", true);
      rendered := output + [Open("      ", "skipped", [("message", message)], " />")];
    case FailureOutcome =>
      var head := Open(
        "      ", "failure",
        [("type", "assertion"), ("message", NatText(|test.failures|) + " assertion failure(s)")], ">");
      rendered := output + [head];
      var i := 0;
      while i < |test.failures|
        invariant i <= |test.failures| && rendered == output + [head] + FailuresLines(test.failures[..i])
      {
        assert test.failures[..i + 1][..i] == test.failures[..i];
        rendered := RenderFailure(rendered, test.failures[i]);
        i := i + 1;
      }
      assert test.failures[..|test.failures|] == test.failures;
      rendered := rendered + [Close("      ", "failure")];
    case ErrorOutcome =>
      var kind := Escape(if test.error.Some? then ErrorKindText(test.error.value.kind) else "internal", true);
      var message := Escape(if test.error.Some? then test.error.value.message else "test execution failed", true);
      rendered := output + [Open("      ", "error", [("type", kind), ("message", message)], " />")];
  }

  method RenderBlock(output: seq<Line>, block: ReportBlock) returns (rendered: seq<Line>)
    ensures rendered == output + BlockLines(block)
  {
    hide Escaped;
    hide TestLines;
    hide Seconds;
    hide CountAttributes;
    var suiteName := SuiteName(block);
    var counts := CountBlock(block);
    var name := Escape(suiteName, true);
    var head := Open(
      "  ", "testsuite", [("name", name)] + CountAttributes(counts) + [("time", Seconds(block.durationMs))], ">");
    rendered := output + [head];
    var i := 0;
    while i < |block.tests|
      invariant i <= |block.tests| && rendered == output + [head] + TestsLines(suiteName, block.tests[..i])
    {
      assert block.tests[..i + 1][..i] == block.tests[..i];
      rendered := RenderTest(rendered, suiteName, block.tests[i]);
      i := i + 1;
    }
    assert block.tests[..|block.tests|] == block.tests;
    rendered := rendered + [Close("  ", "testsuite")];
  }

  method Render(report: RunReport) returns (text: string)
    ensures text == LinesText(ReportLines(report))
  {
    hide Escaped;
    hide BlockLines;
    hide Seconds;
    hide CountAttributes;
    hide LinesText;
    var synthetic := if report.error.Some? then 1 else 0;
    var counts := CountReport(report);
    counts := counts.(
      tests := SaturatingAdd(counts.tests, synthetic), errors := SaturatingAdd(counts.errors, synthetic));
    var name := Escape(if report.name.Some? then report.name.value else report.source, true);
    var head := [
      Open("", "?xml", [("version", "1.0"), ("encoding", "UTF-8")], "?>"),
      Open("", "testsuites", [("name", name)] + CountAttributes(counts) + [("time", Seconds(report.durationMs))], ">")];
    var output := head;
    var i := 0;
    while i < |report.blocks|
      invariant i <= |report.blocks| && output == head + BlocksLines(report.blocks[..i])
    {
      assert report.blocks[..i + 1][..i] == report.blocks[..i];
      output := RenderBlock(output, report.blocks[i]);
      i := i + 1;
    }
    assert report.blocks[..|report.blocks|] == report.blocks;
    if report.error.Some? {
      var message := Escape(report.error.value.message, true);
      output := output + [
        Open("  ", "testsuite", [("name", "rettp")] + CountAttributes(Counts(1, 0, 1, 0)) + [("time", "0.000")], ">"),
        Open("    ", "testcase", [("name", "suite"), ("time", "0.000")], ">"),
        Open("      ", "error", [("type", ErrorKindText(report.error.value.kind)), ("message", message)], " />"),
        Close("    ", "testcase"),
        Close("  ", "testsuite")];
    }
    assert output == head + BlocksLines(report.blocks) + SyntheticLines(report.error);
    output := output + [Close("", "testsuites")];
    assert head[1] == RootLine(report);
    assert output == ReportLines(report);
    text := LinesText(output);
  }
}
