/**
 * The shape of interpolated text: literal text, then a placeholder, and so on. Validation and execution each scan the
 * raw text with their own loop (crates/rettp-parser/src/semantic/interpolation.rs:9-28 and
 * crates/rettp-runtime/src/interpolation.rs:35-68); both see exactly this decomposition.
 */
module Template {
  import opened Wrappers
  import opened Text

  /** Where the pieces of a raw text are: `${` at `start`, its `}` at `end`, and the rest behind it. */
  datatype Template = Tail | Dangling(start: nat) | Hole(start: nat, end: nat, next: Template)

  /** The left-to-right decomposition of `raw` from a position on. */
  function Split(raw: string, cursor: nat): Template
    requires cursor <= |raw|
    decreases |raw| - cursor
  {
    match FindMarker(raw, cursor)
    case None => Tail
    case Some(start) =>
      match FindChar(raw, '}', start + 2)
      case None => Dangling(start)
      case Some(end) => Hole(start, end, Split(raw, end + 1))
  }

  ghost predicate NoMarkerIn(raw: string, from: nat, to: nat) {
    forall k | from <= k < to :: !MarkerAt(raw, k)
  }

  ghost predicate NoBraceIn(raw: string, from: nat, to: nat) {
    forall k | from <= k < to :: !CharAt(raw, '}', k)
  }

  /** The text reads this way: placeholders at markers, closed by the next brace, and no marker left in a literal. */
  ghost predicate Reads(t: Template, raw: string, cursor: nat)
    decreases t
  {
    cursor <= |raw| &&
    match t
    case Tail => NoMarkerIn(raw, cursor, |raw|)
    case Dangling(start) =>
      cursor <= start && MarkerAt(raw, start) && NoMarkerIn(raw, cursor, start) && NoBraceIn(raw, start + 2, |raw|)
    case Hole(start, end, next) =>
      && cursor <= start && MarkerAt(raw, start) && NoMarkerIn(raw, cursor, start)
      && start + 2 <= end && CharAt(raw, '}', end) && NoBraceIn(raw, start + 2, end)
      && Reads(next, raw, end + 1)
  }

  /** What one round of a scanning loop learns about the decomposition. */
  lemma SplitStep(raw: string, cursor: nat)
    requires cursor <= |raw|
    ensures FindMarker(raw, cursor).None? ==> Split(raw, cursor) == Tail
    ensures FindMarker(raw, cursor).Some? ==>
              var start := FindMarker(raw, cursor).value;
              var end := FindChar(raw, '}', start + 2);
              && (end.None? ==> Split(raw, cursor) == Dangling(start))
              && (end.Some? ==> Split(raw, cursor) == Hole(start, end.value, Split(raw, end.value + 1)))
  {
  }

  /** There is exactly one way to read interpolated text, and scanning from the left finds it. */
  lemma {:induction false} ReadingIsUnique(t: Template, raw: string, cursor: nat)
    requires cursor <= |raw|
    ensures t == Split(raw, cursor) <==> Reads(t, raw, cursor)
    decreases t, |raw| - cursor
  {
    hide FindMarker;
    hide FindChar;
    var start := FindMarker(raw, cursor);
    if start.Some? {
      var end := FindChar(raw, '}', start.value + 2);
      if end.Some? && t.Hole? {
        ReadingIsUnique(t.next, raw, end.value + 1);
      }
    }
  }

  /** The literal text of a piece, and the name between the braces of a placeholder. */
  function Literal(raw: string, from: nat, to: nat): string {
    if from <= to <= |raw| then raw[from..to] else ""
  }

  datatype ScanError = EmptyName | Unterminated

  /** `before` and then the placeholder names in order, or the first malformed placeholder. */
  function NamesAfter(raw: string, t: Template, before: seq<string>): Result<seq<string>, ScanError> {
    match t
    case Tail => Ok(before)
    case Dangling(_) => Err(Unterminated)
    case Hole(start, end, next) =>
      var name := Literal(raw, start + 2, end);
      if name == "" then Err(EmptyName) else NamesAfter(raw, next, before + [name])
  }

  function Names(raw: string): Result<seq<string>, ScanError> {
    NamesAfter(raw, Split(raw, 0), [])
  }

  /** The validator's own scanner. */
  method VariableNames(raw: string) returns (r: Result<seq<string>, ScanError>)
    ensures r == Names(raw)
  {
    hide FindMarker;
    hide FindChar;
    hide Split;
    var names: seq<string> := [];
    var cursor := 0;
    ghost var t := Split(raw, 0);
    while true
      invariant cursor <= |raw| && t == Split(raw, cursor)
      invariant NamesAfter(raw, t, names) == Names(raw)
      decreases |raw| - cursor
    {
      SplitStep(raw, cursor);
      var start := FindMarker(raw, cursor);
      if start.None? {
        break;
      }
      var nameStart := start.value + 2;
      var end := FindChar(raw, '}', nameStart);
      if end.None? {
        return Err(Unterminated);
      }
      var name := raw[nameStart..end.value];
      if name == "" {
        return Err(EmptyName);
      }
      names := names + [name];
      cursor := end.value + 1;
      t := Split(raw, cursor);
    }
    return Ok(names);
  }

  /** The placeholder names of a decomposition, malformed or not. */
  function HoleNames(raw: string, t: Template): seq<string> {
    if t.Hole? then [Literal(raw, t.start + 2, t.end)] + HoleNames(raw, t.next) else []
  }

  lemma {:induction false} NamesMeaning(raw: string, t: Template, before: seq<string>)
    ensures NamesAfter(raw, t, before).Ok? ==> NamesAfter(raw, t, before).value == before + HoleNames(raw, t)
  {
    if t.Hole? {
      var name := Literal(raw, t.start + 2, t.end);
      NamesMeaning(raw, t.next, before + [name]);
      assert before + [name] + HoleNames(raw, t.next) == before + HoleNames(raw, t);
    } else {
      assert before + [] == before;
    }
  }

  /** Text the validator accepts in a scope. */
  ghost predicate Closed(raw: string, scope: set<string>) {
    && Names(raw).Ok?
    && forall name | name in Names(raw).value :: ValidVariableName(name) && name in scope
  }

  /** The same on the decomposition itself. */
  ghost predicate ClosedTemplate(raw: string, t: Template, scope: set<string>) {
    match t
    case Tail => true
    case Dangling(_) => false
    case Hole(start, end, next) =>
      && ValidVariableName(Literal(raw, start + 2, end))
      && Literal(raw, start + 2, end) in scope
      && ClosedTemplate(raw, next, scope)
  }

  lemma {:induction false} ClosedByNames(raw: string, t: Template, before: seq<string>, scope: set<string>)
    ensures ClosedTemplate(raw, t, scope) <==>
            && NamesAfter(raw, t, before).Ok?
            && forall name | name in HoleNames(raw, t) :: ValidVariableName(name) && name in scope
  {
    if t.Hole? {
      var first := Literal(raw, t.start + 2, t.end);
      ClosedByNames(raw, t.next, before + [first], scope);
      var names, rest := HoleNames(raw, t), HoleNames(raw, t.next);
      assert names == [first] + rest;
      assert forall name | name in names :: name == first || name in rest;
      assert first in names && forall name | name in rest :: name in names;
    }
  }

  /** The names looked up while interpolating are exactly the names the validator checked. */
  lemma ClosedMeaning(raw: string, scope: set<string>)
    ensures Closed(raw, scope) <==> ClosedTemplate(raw, Split(raw, 0), scope)
    ensures Names(raw).Ok? ==> Names(raw).value == HoleNames(raw, Split(raw, 0))
  {
    ClosedByNames(raw, Split(raw, 0), [], scope);
    NamesMeaning(raw, Split(raw, 0), []);
    if Names(raw).Ok? {
      assert [] + HoleNames(raw, Split(raw, 0)) == HoleNames(raw, Split(raw, 0));
    }
  }

  /** `exact_placeholder`'s test: one placeholder and nothing else. */
  function ExactPlaceholder(raw: string): Option<string> {
    if |raw| < 3 || !MarkerAt(raw, 0) || raw[|raw| - 1] != '}' || '}' in raw[2..|raw| - 1] then None
    else Some(raw[2..|raw| - 1])
  }

  /** That test on the text agrees with the decomposition. */
  lemma ExactPlaceholderMeaning(raw: string)
    ensures ExactPlaceholder(raw).Some? <==> |raw| >= 3 && Split(raw, 0) == Hole(0, |raw| - 1, Tail)
    ensures ExactPlaceholder(raw).Some? ==> ExactPlaceholder(raw).value == Literal(raw, 2, |raw| - 1)
  {
    if |raw| >= 3 {
      var t := Hole(0, |raw| - 1, Tail);
      ReadingIsUnique(t, raw, 0);
      var inner := raw[2..|raw| - 1];
      assert forall k | 2 <= k < |raw| - 1 :: inner[k - 2] == raw[k];
      assert NoBraceIn(raw, 2, |raw| - 1) <==> '}' !in inner by {
        assert forall k | 0 <= k < |inner| :: inner[k] == '}' ==> CharAt(raw, '}', k + 2);
        assert forall k | 2 <= k < |raw| - 1 && CharAt(raw, '}', k) :: inner[k - 2] == '}';
      }
    }
  }
}
