/** The JUnit document agrees with its own counts, and escaped text cannot be mistaken for markup. */
module JunitExact {
  import opened Wrappers
  import opened Text
  import opened Variables
  import opened AssertionSpec
  import opened Execution
  import opened Junit

  // ---- escaping ----

  /** Reading an entity. */
  function Entity(name: string): string {
    if name == "amp" then "&"
    else if name == "lt" then "<"
    else if name == "gt" then ">"
    else if name == "quot" then "\""
    else if name == "apos" then "'"
    else "&" + name + ";"
  }

  /** Reading escaped text: entities are replaced by their characters. */
  function Unescaped(text: string): string
    decreases |text|
  {
    if text == "" then ""
    else if text[0] != '&' then [text[0]] + Unescaped(text[1..])
    else
      match FindChar(text, ';', 1)
      case None => text
      case Some(end) => Entity(text[1..end]) + Unescaped(text[end + 1..])
  }

  lemma {:induction false} EscapedCons(c: char, value: string, attribute: bool)
    ensures Escaped([c] + value, attribute) == EscapedChar(c, attribute) + Escaped(value, attribute)
    decreases |value|
  {
    hide EscapedChar;
    if value == "" {
      assert [c] + value == [c] && [c][..0] == "";
      assert Escaped("", attribute) + EscapedChar(c, attribute) == EscapedChar(c, attribute) + Escaped("", attribute);
    } else {
      var all := [c] + value;
      assert all[..|all| - 1] == [c] + value[..|value| - 1] && all[|all| - 1] == value[|value| - 1];
      EscapedCons(c, value[..|value| - 1], attribute);
    }
  }

  lemma EntityRead(c: char, attribute: bool, rest: string)
    requires EntityOf(c, attribute).Some?
    ensures Unescaped(EscapedChar(c, attribute) + rest) == [c] + Unescaped(rest)
  {
    hide Unescaped;
    var name := EntityOf(c, attribute).value;
    var text := EscapedChar(c, attribute) + rest;
    EntityNames(c, attribute);
    assert text[0] == '&' && text[1 + |name|] == ';' && text[1..1 + |name|] == name;
    assert forall k | 1 <= k < 1 + |name| :: text[k] == name[k - 1];
    assert FindChar(text, ';', 1) == Some(1 + |name|) by {
      assert CharAt(text, ';', 1 + |name|);
      assert forall k | 1 <= k < 1 + |name| :: !CharAt(text, ';', k);
    }
    assert text[1 + |name| + 1..] == rest;
    UnescapeEntity(text, 1 + |name|);
  }

  lemma UnescapeEntity(text: string, end: nat)
    requires text != "" && text[0] == '&' && FindChar(text, ';', 1) == Some(end)
    ensures end < |text| && Unescaped(text) == Entity(text[1..end]) + Unescaped(text[end + 1..])
  {
    hide Entity;
  }

  lemma EntityNames(c: char, attribute: bool)
    requires EntityOf(c, attribute).Some?
    ensures var name := EntityOf(c, attribute).value;
            Entity(name) == [c] && forall k | 0 <= k < |name| :: name[k] != ';'
  {
  }

  /** Escaping loses nothing of a text of legal characters. */
  lemma {:induction false} EscapingIsReversible(value: string, attribute: bool)
    requires forall k | 0 <= k < |value| :: IsXmlCharacter(value[k])
    ensures Unescaped(Escaped(value, attribute)) == value
    decreases |value|
  {
    hide Unescaped;
    hide EscapedChar;
    hide Escaped;
    if value == "" {
      NothingEscaped(attribute);
    } else {
      var c, rest := value[0], value[1..];
      assert value == [c] + rest;
      EscapedCons(c, rest, attribute);
      EscapingIsReversible(rest, attribute);
      if EntityOf(c, attribute).Some? {
        EntityRead(c, attribute, Escaped(rest, attribute));
      } else {
        PlainRead(c, attribute, Escaped(rest, attribute));
      }
    }
  }

  lemma NothingEscaped(attribute: bool)
    ensures Unescaped(Escaped("", attribute)) == ""
  {
  }

  lemma PlainRead(c: char, attribute: bool, rest: string)
    requires EntityOf(c, attribute).None? && IsXmlCharacter(c)
    ensures Unescaped(EscapedChar(c, attribute) + rest) == [c] + Unescaped(rest)
  {
    assert (EscapedChar(c, attribute) + rest)[1..] == rest;
  }

  /** No markup in free text: no opening bracket, and no quote in attributes. */
  predicate Harmless(text: string, attribute: bool) {
    forall k | 0 <= k < |text| :: text[k] != '<' && (attribute ==> text[k] != '"')
  }

  lemma {:induction false} EscapedIsHarmless(value: string, attribute: bool)
    ensures Harmless(Escaped(value, attribute), attribute)
  {
    hide EscapedChar;
    if value != "" {
      EscapedIsHarmless(value[..|value| - 1], attribute);
      OneCharIsHarmless(value[|value| - 1], attribute);
    }
  }

  lemma OneCharIsHarmless(c: char, attribute: bool)
    ensures Harmless(EscapedChar(c, attribute), attribute)
  {
  }

  // ---- elements in a text ----

  predicate NoOpening(s: string) {
    forall k | 0 <= k < |s| :: s[k] != '<'
  }

  /** The name of an element. */
  predicate IsTag(tag: string) {
    tag != "" && tag[0] != '/' && forall k | 0 <= k < |tag| :: tag[k] != ' ' && tag[k] != '\n' && tag[k] != '<'
  }

  predicate OpensAt(s: string, i: nat, tag: string) {
    i < |s| && s[i] == '<' && OccursAt(s, tag + " ", i + 1)
  }

  function ElementsFrom(s: string, tag: string, i: nat): nat
    requires i <= |s|
    decreases |s| - i
  {
    if i == |s| then 0 else (if OpensAt(s, i, tag) then 1 else 0) + ElementsFrom(s, tag, i + 1)
  }

  /** How often an element with attributes is opened in a text. */
  function Elements(s: string, tag: string): nat {
    ElementsFrom(s, tag, 0)
  }

  lemma {:induction false} ElementsBehind(a: string, b: string, tag: string, i: nat)
    requires i <= |b|
    ensures ElementsFrom(a + b, tag, |a| + i) == ElementsFrom(b, tag, i)
    decreases |b| - i
  {
    hide OpensAt;
    if i < |b| {
      SameOpening(a, b, tag, i);
      ElementsBehind(a, b, tag, i + 1);
    }
  }

  lemma SameOpening(a: string, b: string, tag: string, i: nat)
    requires i < |b|
    ensures OpensAt(a + b, |a| + i, tag) == OpensAt(b, i, tag)
  {
    var all, part := a + b, tag + " ";
    if i + 1 + |part| <= |b| {
      assert all[|a| + i + 1..|a| + i + 1 + |part|] == b[i + 1..i + 1 + |part|];
    }
  }

  /** A tag cannot reach over the end of a line. */
  lemma SameOpeningBefore(a: string, b: string, tag: string, i: nat)
    requires i < |a| && a[|a| - 1] == '\n' && IsTag(tag)
    ensures OpensAt(a + b, i, tag) == OpensAt(a, i, tag)
  {
    var all, part := a + b, tag + " ";
    var end := i + 1 + |part|;
    if end <= |a| {
      assert all[i + 1..end] == a[i + 1..end];
    }
    if OpensAt(all, i, tag) {
      forall k | i + 1 <= k < end ensures all[k] != '\n' {
        assert all[i + 1..end][k - i - 1] == part[k - i - 1];
      }
      assert all[|a| - 1] == '\n' && all[i] != '\n';
      assert end <= |a|;
    }
  }

  lemma {:induction false} ElementsInFront(a: string, b: string, tag: string, i: nat)
    requires i <= |a| && (a != "" ==> a[|a| - 1] == '\n') && IsTag(tag)
    ensures ElementsFrom(a + b, tag, i) == ElementsFrom(a, tag, i) + Elements(b, tag)
    decreases |a| - i
  {
    hide OpensAt;
    hide IsTag;
    if i == |a| {
      ElementsBehind(a, b, tag, 0);
    } else {
      SameOpeningBefore(a, b, tag, i);
      ElementsInFront(a, b, tag, i + 1);
    }
  }

  lemma {:induction false} NoElements(s: string, tag: string, i: nat)
    requires i <= |s| && forall k | i <= k < |s| :: s[k] != '<'
    ensures ElementsFrom(s, tag, i) == 0
    decreases |s| - i
  {
    if i < |s| {
      NoElements(s, tag, i + 1);
    }
  }

  /** A text with a single opening bracket, behind `indent`. */
  lemma {:induction false} SingleOpening(indent: string, rest: string, tag: string, i: nat)
    requires NoOpening(indent) && NoOpening(rest) && i <= |indent|
    ensures ElementsFrom(indent + "<" + rest, tag, i) == if OccursAt(rest, tag + " ", 0) then 1 else 0
    decreases |indent| - i
  {
    hide OccursAt;
    var s := indent + "<" + rest;
    if i < |indent| {
      assert s[i] == indent[i];
      SingleOpening(indent, rest, tag, i + 1);
    } else {
      assert s[i] == '<';
      assert forall k | i + 1 <= k < |s| :: s[k] == rest[k - i - 1];
      NoElements(s, tag, i + 1);
      BehindBracket(indent + "<", rest, tag + " ");
    }
  }

  lemma BehindBracket(front: string, rest: string, part: string)
    ensures OccursAt(front + rest, part, |front|) == OccursAt(rest, part, 0)
  {
    if |part| <= |rest| {
      assert (front + rest)[|front|..|front| + |part|] == rest[0..|part|];
    }
  }

  /** An element name followed by a space is the tag, and nothing else. */
  lemma NameAtStart(element: string, more: string, tag: string)
    requires IsTag(element) && IsTag(tag)
    ensures OccursAt(element + (" " + more), tag + " ", 0) <==> element == tag
  {
    var s, part := element + (" " + more), tag + " ";
    if element == tag {
      assert s[0..|part|] == part;
    }
    if OccursAt(s, part, 0) {
      forall k | 0 <= k < |part| ensures s[k] == part[k] {
        assert s[0..|part|][k] == part[k];
      }
      assert s[|tag|] == part[|tag|] && s[|element|] == ' ';
      assert forall k | 0 <= k < |element| :: s[k] == element[k] && s[k] != ' ';
      assert forall k | 0 <= k < |tag| :: s[k] == part[k] && part[k] == tag[k] && s[k] != ' ';
      assert |tag| == |element|;
    }
  }

  lemma NotAtStart(s: string, part: string)
    requires s != "" && part != "" && s[0] != part[0]
    ensures !OccursAt(s, part, 0)
  {
    if |part| <= |s| {
      assert s[0..|part|][0] == s[0];
    }
  }

  // ---- lines ----

  ghost predicate AttributesOk(attributes: seq<(string, string)>) {
    forall k | 0 <= k < |attributes| :: NoOpening(attributes[k].0) && NoOpening(attributes[k].1)
  }

  /** A line in which only an element's own bracket opens markup. */
  ghost predicate LineOk(line: Line) {
    match line
    case Open(indent, element, attributes, ending) =>
      NoOpening(indent) && IsTag(element) && attributes != [] && AttributesOk(attributes) && NoOpening(ending)
    case Close(indent, element) => NoOpening(indent) && IsTag(element)
    case Raw(text) => NoOpening(text)
  }

  lemma {:induction false} AttributesHaveNoOpening(attributes: seq<(string, string)>)
    requires AttributesOk(attributes)
    ensures NoOpening(AttributesText(attributes))
  {
    if attributes != [] {
      AttributesHaveNoOpening(attributes[1..]);
    }
  }

  function OpenOf(line: Line, tag: string): nat {
    if line.Open? && line.element == tag then 1 else 0
  }

  lemma LineElements(line: Line, tag: string)
    requires LineOk(line) && IsTag(tag)
    ensures Elements(LineText(line), tag) == OpenOf(line, tag)
  {
    hide IsTag;
    match line
    case Open(indent, element, attributes, ending) => OpenElements(indent, element, attributes, ending, tag);
    case Close(indent, element) => CloseElements(indent, element, tag);
    case Raw(text) => NoElements(LineText(line), tag, 0);
  }

  /** What follows an element's name and the space behind it. */
  function More(attributes: seq<(string, string)>, ending: string): string
    requires attributes != []
  {
    attributes[0].0 + "=\"" + attributes[0].1 + "\"" + AttributesText(attributes[1..]) + ending + "\n"
  }

  lemma OpenShape(indent: string, element: string, attributes: seq<(string, string)>, ending: string)
    requires attributes != []
    ensures LineText(Open(indent, element, attributes, ending)) == indent + "<" + (element + (" " + More(attributes, ending)))
  {
    var first := attributes[0].0 + "=\"" + attributes[0].1 + "\"";
    var others := AttributesText(attributes[1..]);
    assert AttributesText(attributes) == " " + first + others;
    Reassociate(indent + "<", element, " ", first, others, ending);
  }

  lemma Reassociate(a: string, b: string, c: string, d: string, e: string, f: string)
    ensures a + (b + (c + d + e) + f) + "\n" == a + (b + (c + (d + e + f + "\n")))
  {
  }

  lemma MoreHasNoOpening(attributes: seq<(string, string)>, ending: string)
    requires attributes != [] && AttributesOk(attributes) && NoOpening(ending)
    ensures NoOpening(More(attributes, ending))
  {
    AttributesHaveNoOpening(attributes[1..]);
  }

  lemma OpenElements(indent: string, element: string, attributes: seq<(string, string)>, ending: string, tag: string)
    requires LineOk(Open(indent, element, attributes, ending)) && IsTag(tag)
    ensures Elements(LineText(Open(indent, element, attributes, ending)), tag) == if element == tag then 1 else 0
  {
    hide LineText;
    hide More;
    hide AttributesOk;
    hide OccursAt;
    var more := More(attributes, ending);
    MoreHasNoOpening(attributes, ending);
    assert NoOpening(element + (" " + more));
    OpenShape(indent, element, attributes, ending);
    SingleOpening(indent, element + (" " + more), tag, 0);
    NameAtStart(element, more, tag);
  }

  lemma CloseElements(indent: string, element: string, tag: string)
    requires LineOk(Close(indent, element)) && IsTag(tag)
    ensures Elements(LineText(Close(indent, element)), tag) == 0
  {
    var rest := "/" + element + ">" + "\n";
    SingleOpening(indent, rest, tag, 0);
    assert LineText(Close(indent, element)) == indent + "<" + rest;
    NotAtStart(rest, tag + " ");
  }

  lemma LineEnds(line: Line)
    ensures LineText(line) != "" && LineText(line)[|LineText(line)| - 1] == '\n'
  {
  }

  ghost predicate LinesOk(lines: seq<Line>) {
    forall k | 0 <= k < |lines| :: LineOk(lines[k])
  }

  function OpenCount(lines: seq<Line>, tag: string): nat {
    if lines == [] then 0 else OpenCount(lines[..|lines| - 1], tag) + OpenOf(lines[|lines| - 1], tag)
  }

  lemma {:induction false} OpenCountAppend(a: seq<Line>, b: seq<Line>, tag: string)
    ensures OpenCount(a + b, tag) == OpenCount(a, tag) + OpenCount(b, tag)
  {
    hide OpenOf;
    if b == [] {
      assert a + b == a;
    } else {
      OpenCountAppend(a, b[..|b| - 1], tag);
      assert (a + b)[..|a + b| - 1] == a + b[..|b| - 1];
    }
  }

  /** Counting in the text is counting the lines that open the element. */
  lemma {:induction false} LinesElements(lines: seq<Line>, tag: string)
    requires LinesOk(lines) && IsTag(tag)
    ensures Elements(LinesText(lines), tag) == OpenCount(lines, tag)
    ensures LinesText(lines) != "" ==> LinesText(lines)[|LinesText(lines)| - 1] == '\n'
  {
    hide LineText;
    hide IsTag;
    hide LineOk;
    hide OpenOf;
    if lines != [] {
      var front, last := lines[..|lines| - 1], lines[|lines| - 1];
      LinesElements(front, tag);
      LineElements(last, tag);
      LineEnds(last);
      ElementsInFront(LinesText(front), LineText(last), tag, 0);
    }
  }

  // ---- the report ----

  /** What the elements of interest are called. */
  lemma TagNames()
    ensures IsTag("testcase") && IsTag("failure") && IsTag("error") && IsTag("skipped")
    ensures IsTag("testsuite") && IsTag("testsuites") && IsTag("?xml")
  {
  }

  /** The lines that open the four counted elements. */
  function Opened(lines: seq<Line>): Counts {
    Counts(OpenCount(lines, "testcase"), OpenCount(lines, "failure"), OpenCount(lines, "error"),
           OpenCount(lines, "skipped"))
  }

  /** Componentwise sum, without saturation. */
  function Sum(a: Counts, b: Counts): Counts {
    Counts(a.tests + b.tests, a.failures + b.failures, a.errors + b.errors, a.skipped + b.skipped)
  }

  function Saturated(c: Counts): Counts {
    Counts(Cap(c.tests), Cap(c.failures), Cap(c.errors), Cap(c.skipped))
  }

  function Cap(n: nat): nat {
    if n > U64_MAX then U64_MAX else n
  }

  lemma OpenedAppend(a: seq<Line>, b: seq<Line>)
    ensures Opened(a + b) == Sum(Opened(a), Opened(b))
  {
    hide OpenCount;
    OpenCountAppend(a, b, "testcase");
    OpenCountAppend(a, b, "failure");
    OpenCountAppend(a, b, "error");
    OpenCountAppend(a, b, "skipped");
  }

  /** A line that opens none of the counted elements. */
  predicate Neutral(line: Line) {
    line.Open? ==> line.element != "testcase" && line.element != "failure" && line.element != "error"
                   && line.element != "skipped"
  }

  lemma {:induction false} NeutralLines(lines: seq<Line>)
    requires forall k | 0 <= k < |lines| :: Neutral(lines[k])
    ensures Opened(lines) == NO_COUNTS
  {
    if lines != [] {
      NeutralLines(lines[..|lines| - 1]);
      assert Neutral(lines[|lines| - 1]);
    }
  }

  lemma SingleOpen(line: Line, tag: string)
    ensures OpenCount([line], tag) == OpenOf(line, tag)
  {
    var lines := [line];
    assert lines[..|lines| - 1] == [];
  }

  lemma OneOpened(line: Line)
    ensures Opened([line])
         == Counts(OpenOf(line, "testcase"), OpenOf(line, "failure"), OpenOf(line, "error"), OpenOf(line, "skipped"))
  {
    hide OpenOf;
    hide OpenCount;
    SingleOpen(line, "testcase");
    SingleOpen(line, "failure");
    SingleOpen(line, "error");
    SingleOpen(line, "skipped");
  }

  lemma {:induction false} FailuresAreNeutral(failures: seq<ReportFailure>)
    ensures forall k | 0 <= k < |FailuresLines(failures)| :: FailuresLines(failures)[k].Raw?
  {
    if failures != [] {
      FailuresAreNeutral(failures[..|failures| - 1]);
    }
  }

  lemma FailureOpened(line: Line)
    requires line.Open? && line.element == "failure"
    ensures Opened([line]) == Counts(0, 1, 0, 0)
  {
    hide OpenCount;
    OneOpened(line);
  }

  lemma ErrorOpened(line: Line)
    requires line.Open? && line.element == "error"
    ensures Opened([line]) == Counts(0, 0, 1, 0)
  {
    hide OpenCount;
    OneOpened(line);
  }

  lemma SkippedOpened(line: Line)
    requires line.Open? && line.element == "skipped"
    ensures Opened([line]) == Counts(0, 0, 0, 1)
  {
    hide OpenCount;
    OneOpened(line);
  }

  /** The lines of an outcome: none, one element, or a failure with neutral lines behind it. */
  lemma OutcomeShape(test: ReportTest)
    ensures var lines := OutcomeLines(test);
            match OutcomeOf(test)
            case PassedOutcome => lines == []
            case SkippedOutcome => |lines| == 1 && lines[0].Open? && lines[0].element == "skipped"
            case FailureOutcome =>
              && |lines| > 0 && lines[0].Open? && lines[0].element == "failure"
              && forall k | 1 <= k < |lines| :: !lines[k].Open?
            case ErrorOutcome => |lines| == 1 && lines[0].Open? && lines[0].element == "error"
  {
    hide Escaped;
    hide FailuresLines;
    hide NatText;
    hide ErrorKindText;
    FailuresAreNeutral(test.failures);
  }

  lemma HeadCounts(lines: seq<Line>)
    requires |lines| > 0 && lines[0].Open? && forall k | 1 <= k < |lines| :: !lines[k].Open?
    ensures Opened(lines) == Opened([lines[0]])
  {
    hide OpenCount;
    var rest := lines[1..];
    assert lines == [lines[0]] + rest;
    assert forall k | 0 <= k < |rest| :: rest[k] == lines[k + 1];
    OpenedAppend([lines[0]], rest);
    NeutralLines(rest);
  }

  lemma OutcomeOpened(test: ReportTest)
    ensures Sum(Counts(1, 0, 0, 0), Opened(OutcomeLines(test))) == TestCounts(test)
  {
    hide OutcomeLines;
    hide Opened;
    OutcomeShape(test);
    var lines := OutcomeLines(test);
    match OutcomeOf(test)
    case PassedOutcome => NeutralLines([]);
    case SkippedOutcome =>
      HeadCounts(lines);
      SkippedOpened(lines[0]);
    case FailureOutcome =>
      HeadCounts(lines);
      FailureOpened(lines[0]);
    case ErrorOutcome =>
      HeadCounts(lines);
      ErrorOpened(lines[0]);
  }

  lemma TestOpened(className: string, test: ReportTest)
    ensures Opened(TestLines(className, test)) == TestCounts(test)
  {
    hide Escaped;
    hide OutcomeLines;
    hide OpenCount;
    hide TestCounts;
    var lines := TestLines(className, test);
    var head, last := lines[0], Close("    ", "testcase");
    assert lines == [head] + OutcomeLines(test) + [last];
    OpenedAppend([head] + OutcomeLines(test), [last]);
    OpenedAppend([head], OutcomeLines(test));
    OneOpened(head);
    OneOpened(last);
    OutcomeOpened(test);
  }

  /** The counts without saturation. */
  function ExactTests(tests: seq<ReportTest>): Counts {
    if tests == [] then NO_COUNTS else Sum(ExactTests(tests[..|tests| - 1]), TestCounts(tests[|tests| - 1]))
  }

  function ExactBlocks(blocks: seq<ReportBlock>): Counts {
    if blocks == [] then NO_COUNTS else Sum(ExactBlocks(blocks[..|blocks| - 1]), ExactTests(blocks[|blocks| - 1].tests))
  }

  lemma {:induction false} TestsOpened(className: string, tests: seq<ReportTest>)
    ensures Opened(TestsLines(className, tests)) == ExactTests(tests)
  {
    hide TestLines;
    hide TestCounts;
    if tests == [] {
      NeutralLines([]);
    } else {
      hide OpenCount;
      TestsOpened(className, tests[..|tests| - 1]);
      TestOpened(className, tests[|tests| - 1]);
      OpenedAppend(TestsLines(className, tests[..|tests| - 1]), TestLines(className, tests[|tests| - 1]));
    }
  }

  lemma BlockOpened(block: ReportBlock)
    ensures Opened(BlockLines(block)) == ExactTests(block.tests)
  {
    hide Escaped;
    hide TestsLines;
    hide OpenCount;
    hide ExactTests;
    hide BlockCounts;
    var lines := BlockLines(block);
    var head, inner, last := lines[0], TestsLines(SuiteName(block), block.tests), Close("  ", "testsuite");
    assert lines == [head] + inner + [last];
    OpenedAppend([head] + inner, [last]);
    OpenedAppend([head], inner);
    OneOpened(head);
    OneOpened(last);
    TestsOpened(SuiteName(block), block.tests);
  }

  lemma {:induction false} BlocksOpened(blocks: seq<ReportBlock>)
    ensures Opened(BlocksLines(blocks)) == ExactBlocks(blocks)
  {
    hide BlockLines;
    hide ExactTests;
    if blocks == [] {
      NeutralLines([]);
    } else {
      hide OpenCount;
      BlocksOpened(blocks[..|blocks| - 1]);
      BlockOpened(blocks[|blocks| - 1]);
      OpenedAppend(BlocksLines(blocks[..|blocks| - 1]), BlockLines(blocks[|blocks| - 1]));
    }
  }

  function Synthetic(error: Option<ReportError>): Counts {
    if error.Some? then Counts(1, 0, 1, 0) else NO_COUNTS
  }

  lemma SyntheticShape(error: Option<ReportError>)
    requires error.Some?
    ensures var lines := SyntheticLines(error);
            && |lines| == 5 && lines[0].Open? && lines[0].element == "testsuite" && !lines[3].Open? && !lines[4].Open?
            && lines[1].Open? && lines[1].element == "testcase" && lines[2].Open? && lines[2].element == "error"
  {
    hide Escaped;
    hide CountAttributes;
    hide ErrorKindText;
  }

  lemma OpenCountSnoc(lines: seq<Line>, count: nat, tag: string)
    requires count < |lines|
    ensures OpenCount(lines[..count + 1], tag) == OpenCount(lines[..count], tag) + OpenOf(lines[count], tag)
  {
    hide OpenOf;
    assert lines[..count + 1][..count] == lines[..count];
  }

  lemma FiveLines(lines: seq<Line>, tag: string)
    requires |lines| == 5
    ensures OpenCount(lines, tag)
         == OpenOf(lines[0], tag) + OpenOf(lines[1], tag) + OpenOf(lines[2], tag) + OpenOf(lines[3], tag)
            + OpenOf(lines[4], tag)
  {
    assert OpenCount(lines[..0], tag) == 0;
    hide OpenOf;
    hide OpenCount;
    OpenCountSnoc(lines, 0, tag);
    OpenCountSnoc(lines, 1, tag);
    OpenCountSnoc(lines, 2, tag);
    OpenCountSnoc(lines, 3, tag);
    OpenCountSnoc(lines, 4, tag);
    assert lines[..5] == lines;
  }

  lemma SyntheticOpened(error: Option<ReportError>)
    ensures Opened(SyntheticLines(error)) == Synthetic(error)
  {
    if error.None? {
      NeutralLines([]);
    } else {
      hide SyntheticLines;
      hide OpenCount;
      SyntheticShape(error);
      var lines := SyntheticLines(error);
      FiveLines(lines, "testcase");
      FiveLines(lines, "failure");
      FiveLines(lines, "error");
      FiveLines(lines, "skipped");
    }
  }

  lemma ReportOpened(report: RunReport)
    ensures Opened(ReportLines(report)) == Sum(ExactBlocks(report.blocks), Synthetic(report.error))
  {
    hide Escaped;
    hide OpenCount;
    hide BlocksLines;
    hide SyntheticLines;
    hide ExactBlocks;
    hide RootCounts;
    var head := [Open("", "?xml", [("version", "1.0"), ("encoding", "UTF-8")], "?>"), RootLine(report)];
    var blocks, synthetic, last := BlocksLines(report.blocks), SyntheticLines(report.error), [Close("", "testsuites")];
    assert ReportLines(report) == head + blocks + synthetic + last;
    OpenedAppend(head + blocks + synthetic, last);
    OpenedAppend(head + blocks, synthetic);
    OpenedAppend(head, blocks);
    NeutralLines(head);
    NeutralLines(last);
    BlocksOpened(report.blocks);
    SyntheticOpened(report.error);
  }

  // ---- saturation ----

  lemma {:induction false} BlockCountsSaturate(tests: seq<ReportTest>)
    ensures BlockCounts(tests) == Saturated(ExactTests(tests))
  {
    if tests != [] {
      BlockCountsSaturate(tests[..|tests| - 1]);
    }
  }

  lemma {:induction false} ReportCountsSaturate(blocks: seq<ReportBlock>)
    ensures ReportCounts(blocks) == Saturated(ExactBlocks(blocks))
  {
    hide BlockCounts;
    hide ExactTests;
    if blocks != [] {
      ReportCountsSaturate(blocks[..|blocks| - 1]);
      BlockCountsSaturate(blocks[|blocks| - 1].tests);
    }
  }

  // ---- all lines are in order ----

  lemma {:induction false} NumbersHaveNoOpening(n: nat)
    ensures NoOpening(NatText(n))
    decreases n
  {
    if n >= 10 {
      NumbersHaveNoOpening(n / 10);
    }
  }

  lemma AttributeHasNoOpening(value: string)
    ensures NoOpening(Attribute(value))
  {
    EscapedIsHarmless(value, true);
  }

  lemma SecondsHaveNoOpening(durationMs: nat)
    ensures NoOpening(Seconds(durationMs))
  {
    hide NatText;
    NumbersHaveNoOpening(durationMs / 1000);
    NumbersHaveNoOpening(durationMs % 1000);
  }

  lemma KindsHaveNoOpening(kind: ErrorKind, failure: FailureKind)
    ensures NoOpening(ErrorKindText(kind)) && NoOpening(FailureKindText(failure))
  {
    FailureKindHasNoOpening(failure);
    hide FailureKindText;
  }

  lemma FailureKindHasNoOpening(failure: FailureKind)
    ensures NoOpening(FailureKindText(failure))
  {
  }

  lemma CountsAreOk(counts: Counts)
    ensures AttributesOk(CountAttributes(counts))
  {
    hide NatText;
    NumbersHaveNoOpening(counts.tests);
    NumbersHaveNoOpening(counts.failures);
    NumbersHaveNoOpening(counts.errors);
    NumbersHaveNoOpening(counts.skipped);
  }

  /** Attributes of a suite element: a name, four counts and a time. */
  lemma SuiteAttributesOk(name: string, counts: Counts, time: string)
    requires NoOpening(name) && NoOpening(time)
    ensures AttributesOk([("name", name)] + CountAttributes(counts) + [("time", time)])
  {
    CountsAreOk(counts);
    hide CountAttributes;
    hide NoOpening;
    LiteralsHaveNoOpening();
  }

  lemma LiteralsHaveNoOpening()
    ensures NoOpening("name") && NoOpening("time") && NoOpening("classname") && NoOpening("type") && NoOpening("message")
    ensures NoOpening(" />") && NoOpening(">") && NoOpening("?>") && NoOpening("version") && NoOpening("encoding")
    ensures NoOpening("1.0") && NoOpening("UTF-8") && NoOpening("assertion") && NoOpening("rettp") && NoOpening("suite")
    ensures NoOpening("0.000") && NoOpening("internal") && NoOpening(" assertion failure(s)")
    ensures NoOpening("") && NoOpening("  ") && NoOpening("    ") && NoOpening("      ")
  {
  }

  lemma FailureLinesOk(failure: ReportFailure)
    ensures LinesOk(FailureLines(failure))
  {
    hide Escaped;
    EscapedIsHarmless(failure.path, false);
    EscapedIsHarmless(failure.message, false);
    KindsHaveNoOpening(ErrorKind.Internal, failure.kind);
    hide FailureKindText;
    if failure.expected.Some? {
      EscapedIsHarmless(failure.expected.value, false);
    }
    if failure.actual.Some? {
      EscapedIsHarmless(failure.actual.value, false);
    }
  }

  lemma {:induction false} FailuresLinesOk(failures: seq<ReportFailure>)
    ensures LinesOk(FailuresLines(failures))
  {
    hide FailureLines;
    hide LineOk;
    if failures != [] {
      FailuresLinesOk(failures[..|failures| - 1]);
      FailureLinesOk(failures[|failures| - 1]);
    }
  }

  lemma OutcomeLinesOk(test: ReportTest)
    ensures LinesOk(OutcomeLines(test))
  {
    hide Escaped;
    hide FailuresLines;
    hide ErrorKindText;
    hide NatText;
    hide NoOpening;
    hide IsTag;
    hide Attribute;
    TagNames();
    LiteralsHaveNoOpening();
    var lines := OutcomeLines(test);
    match OutcomeOf(test)
    case PassedOutcome =>
    case SkippedOutcome => AttributeHasNoOpening(if test.error.Some? then test.error.value.message else "dependency failed");
    case FailureOutcome =>
      FailuresLinesOk(test.failures);
      CountTextOk(|test.failures|);
    case ErrorOutcome =>
      AttributeHasNoOpening(if test.error.Some? then ErrorKindText(test.error.value.kind) else "internal");
      AttributeHasNoOpening(if test.error.Some? then test.error.value.message else "test execution failed");
  }

  lemma CountTextOk(n: nat)
    ensures NoOpening(NatText(n) + " assertion failure(s)")
  {
    NumbersHaveNoOpening(n);
  }

  lemma TestLinesOk(className: string, test: ReportTest)
    ensures LinesOk(TestLines(className, test))
  {
    hide Attribute;
    hide OutcomeLines;
    hide Seconds;
    hide NoOpening;
    hide IsTag;
    TagNames();
    LiteralsHaveNoOpening();
    OutcomeLinesOk(test);
    AttributeHasNoOpening(className);
    AttributeHasNoOpening(test.name);
    SecondsHaveNoOpening(test.durationMs);
  }

  lemma {:induction false} TestsLinesOk(className: string, tests: seq<ReportTest>)
    ensures LinesOk(TestsLines(className, tests))
  {
    hide TestLines;
    hide LineOk;
    if tests != [] {
      TestsLinesOk(className, tests[..|tests| - 1]);
      TestLinesOk(className, tests[|tests| - 1]);
    }
  }

  lemma BlockLinesOk(block: ReportBlock)
    ensures LinesOk(BlockLines(block))
  {
    hide Attribute;
    hide TestsLines;
    hide Seconds;
    hide NoOpening;
    hide IsTag;
    hide CountAttributes;
    hide AttributesOk;
    TagNames();
    LiteralsHaveNoOpening();
    TestsLinesOk(SuiteName(block), block.tests);
    AttributeHasNoOpening(SuiteName(block));
    SecondsHaveNoOpening(block.durationMs);
    SuiteAttributesOk(Attribute(SuiteName(block)), BlockCounts(block.tests), Seconds(block.durationMs));
  }

  lemma {:induction false} BlocksLinesOk(blocks: seq<ReportBlock>)
    ensures LinesOk(BlocksLines(blocks))
  {
    hide BlockLines;
    hide LineOk;
    if blocks != [] {
      BlocksLinesOk(blocks[..|blocks| - 1]);
      BlockLinesOk(blocks[|blocks| - 1]);
    }
  }

  lemma SyntheticLinesOk(error: Option<ReportError>)
    ensures LinesOk(SyntheticLines(error))
  {
    hide Attribute;
    hide NoOpening;
    hide IsTag;
    hide CountAttributes;
    hide ErrorKindText;
    if error.Some? {
      TagNames();
      LiteralsHaveNoOpening();
      SuiteAttributesOk("rettp", Counts(1, 0, 1, 0), "0.000");
      KindsHaveNoOpening(error.value.kind, FailureKind.MissingField);
      AttributeHasNoOpening(error.value.message);
    }
  }

  lemma HeadLinesOk(report: RunReport)
    ensures LineOk(Open("", "?xml", [("version", "1.0"), ("encoding", "UTF-8")], "?>")) && LineOk(RootLine(report))
    ensures LineOk(Close("", "testsuites"))
  {
    hide Attribute;
    hide Seconds;
    hide NoOpening;
    hide IsTag;
    hide CountAttributes;
    hide RootCounts;
    TagNames();
    LiteralsHaveNoOpening();
    var name := if report.name.Some? then report.name.value else report.source;
    AttributeHasNoOpening(name);
    SecondsHaveNoOpening(report.durationMs);
    SuiteAttributesOk(Attribute(name), RootCounts(report), Seconds(report.durationMs));
  }

  lemma ReportLinesOk(report: RunReport)
    ensures LinesOk(ReportLines(report))
  {
    hide LineOk;
    hide RootLine;
    hide BlocksLines;
    hide SyntheticLines;
    HeadLinesOk(report);
    BlocksLinesOk(report.blocks);
    SyntheticLinesOk(report.error);
  }

  /** The counted elements of a text. */
  function ElementCounts(text: string): Counts {
    Counts(Elements(text, "testcase"), Elements(text, "failure"), Elements(text, "error"), Elements(text, "skipped"))
  }

  /** The counted elements of the rendered text are those of the report, one by one. */
  lemma DocumentElements(report: RunReport)
    ensures ElementCounts(LinesText(ReportLines(report))) == Sum(ExactBlocks(report.blocks), Synthetic(report.error))
  {
    hide LinesText;
    hide Elements;
    hide LinesOk;
    hide OpenCount;
    hide ExactBlocks;
    hide ReportLines;
    hide Synthetic;
    hide IsTag;
    var lines := ReportLines(report);
    TagNames();
    ReportLinesOk(report);
    LinesElements(lines, "testcase");
    LinesElements(lines, "failure");
    LinesElements(lines, "error");
    LinesElements(lines, "skipped");
    ReportOpened(report);
  }

  /**
   * The document counts itself: the numbers in its root element are those of the testcase, failure, error and skipped
   * elements in the rendered text, up to saturation at the largest 64-bit number.
   */
  lemma DocumentCountsItself(report: RunReport)
    ensures RootCounts(report) == Saturated(ElementCounts(LinesText(ReportLines(report))))
    ensures |ReportLines(report)| > 1 && ReportLines(report)[1] == RootLine(report)
  {
    hide LinesText;
    hide ElementCounts;
    hide ReportCounts;
    hide ExactBlocks;
    hide RootLine;
    hide BlocksLines;
    hide SyntheticLines;
    DocumentElements(report);
    ReportCountsSaturate(report.blocks);
  }
}
