/** Bounded interpolation and value resolution, crates/rettp-runtime/src/interpolation.rs. */
module Interpolation {
  import opened Wrappers
  import opened Text
  import opened IndexMap
  import opened JsonValues
  import opened Domain
  import opened Template
  import opened Variables
  import opened RuntimeErrors

  datatype RawRuntimeConfig = RuntimeConfig(maxInterpolatedBytes: nat, maxResolutionDepth: nat)

  /** Limits accepted by `RuntimeConfig::new`. */
  type RuntimeConfig = c: RawRuntimeConfig |
      0 < c.maxInterpolatedBytes <= 16 * 1024 * 1024 && 0 < c.maxResolutionDepth <= 256
    witness RuntimeConfig(1024 * 1024, 128)

  function PushBounded(config: RuntimeConfig, output: string, fragment: string, location: ResolutionLocation)
    : Result<string, RuntimeError>
  {
    if ByteLen(output) + ByteLen(fragment) > config.maxInterpolatedBytes then
      Err(InterpolatedValueTooLarge(location, config.maxInterpolatedBytes))
    else Ok(output + fragment)
  }

  function Lookup(config: RuntimeConfig, name: string, variables: Contents, location: ResolutionLocation)
    : Result<Content, RuntimeError>
  {
    if name == "" then Err(EmptyPlaceholder(location))
    else if ByteLen(name) > config.maxInterpolatedBytes then
      Err(InterpolatedValueTooLarge(location, config.maxInterpolatedBytes))
    else if !ValidVariableName(name) then Err(RuntimeError.InvalidVariableName(name, location))
    else
      match Find(variables, name)
      case None => Err(UndefinedVariable(name, location))
      case Some(content) => Ok(content)
  }

  /** What one placeholder contributes. */
  function PlaceholderText(config: RuntimeConfig, name: string, variables: Contents, location: ResolutionLocation)
    : Result<string, RuntimeError>
  {
    var content :- Lookup(config, name, variables, location);
    match content.ScalarText()
    case None => Err(UnsupportedInterpolationType(name, content.TypeName(), location))
    case Some(text) => Ok(text)
  }

  /** Substitution of the pieces from `cursor` on, behind what is already in `output`. */
  function Substitute(
    config: RuntimeConfig, raw: string, t: Template, cursor: nat, variables: Contents, location: ResolutionLocation,
    output: string)
    : Result<string, RuntimeError>
    decreases t
  {
    match t
    case Tail => PushBounded(config, output, Literal(raw, cursor, |raw|), location)
    case Dangling(start) =>
      var _ :- PushBounded(config, output, Literal(raw, cursor, start), location);
      Err(UnterminatedPlaceholder(location))
    case Hole(start, end, next) =>
      var before :- PushBounded(config, output, Literal(raw, cursor, start), location);
      var text :- PlaceholderText(config, Literal(raw, start + 2, end), variables, location);
      var after :- PushBounded(config, before, text, location);
      Substitute(config, raw, next, end + 1, variables, location, after)
  }

  function Interpolated(config: RuntimeConfig, raw: string, variables: Contents, location: ResolutionLocation)
    : Result<string, RuntimeError>
  {
    Substitute(config, raw, Split(raw, 0), 0, variables, location, "")
  }

  lemma SubstituteHole(
    config: RuntimeConfig, raw: string, start: nat, end: nat, next: Template, cursor: nat, variables: Contents,
    location: ResolutionLocation, output: string)
    requires cursor <= start && start + 2 <= end < |raw|
    ensures var pushed := PushBounded(config, output, raw[cursor..start], location);
            Substitute(config, raw, Hole(start, end, next), cursor, variables, location, output) ==
            if pushed.Err? then pushed
            else
              var text := PlaceholderText(config, raw[start + 2..end], variables, location);
              if text.Err? then text
              else
                var after := PushBounded(config, pushed.value, text.value, location);
                if after.Err? then after else Substitute(config, raw, next, end + 1, variables, location, after.value)
  {
    hide ByteLen;
    hide PlaceholderText;
  }

  lemma SubstituteEnd(
    config: RuntimeConfig, raw: string, start: nat, cursor: nat, variables: Contents, location: ResolutionLocation,
    output: string)
    requires cursor <= start <= |raw|
    ensures var pushed := PushBounded(config, output, raw[cursor..start], location);
            Substitute(config, raw, Dangling(start), cursor, variables, location, output)
            == if pushed.Err? then pushed else Err(UnterminatedPlaceholder(location))
    ensures Substitute(config, raw, Tail, cursor, variables, location, output)
         == PushBounded(config, output, raw[cursor..], location)
  {
    hide ByteLen;
    assert raw[cursor..] == raw[cursor..|raw|];
  }

  /** The runtime's loop over a raw text. */
  method Interpolate(config: RuntimeConfig, raw: string, variables: Contents, location: ResolutionLocation)
    returns (r: Result<string, RuntimeError>)
    ensures r == Interpolated(config, raw, variables, location)
  {
    hide FindMarker;
    hide FindChar;
    hide Split;
    hide PlaceholderText;
    hide PushBounded;
    hide Substitute;
    var output := "";
    var cursor := 0;
    while true
      invariant cursor <= |raw|
      invariant Substitute(config, raw, Split(raw, cursor), cursor, variables, location, output)
             == Interpolated(config, raw, variables, location)
      decreases |raw| - cursor
    {
      SplitStep(raw, cursor);
      var start := FindMarker(raw, cursor);
      if start.None? {
        break;
      }
      SubstituteEnd(config, raw, start.value, cursor, variables, location, output);
      ghost var close := FindChar(raw, '}', start.value + 2);
      if close.Some? {
        SubstituteHole(
          config, raw, start.value, close.value, Split(raw, close.value + 1), cursor, variables, location, output);
      }
      var pushed := PushBounded(config, output, raw[cursor..start.value], location);
      if pushed.Err? {
        return pushed;
      }
      var nameStart := start.value + 2;
      var end := FindChar(raw, '}', nameStart);
      if end.None? {
        return Err(UnterminatedPlaceholder(location));
      }
      var text := PlaceholderText(config, raw[nameStart..end.value], variables, location);
      if text.Err? {
        return text;
      }
      var after := PushBounded(config, pushed.value, text.value, location);
      if after.Err? {
        return after;
      }
      output, cursor := after.value, end.value + 1;
    }
    SubstituteEnd(config, raw, |raw|, cursor, variables, location, output);
    return PushBounded(config, output, raw[cursor..], location);
  }

  /** The text of a scalar variable. */
  function ScalarOf(name: string, variables: Contents): string {
    var content := Find(variables, name);
    if content.Some? && content.value.ScalarText().Some? then content.value.ScalarText().value else ""
  }

  /** Literals and scalar texts in order; substituted text is not looked at again. */
  function Filled(raw: string, t: Template, cursor: nat, variables: Contents): string
    decreases t
  {
    match t
    case Hole(start, end, next) =>
      Literal(raw, cursor, start) + ScalarOf(Literal(raw, start + 2, end), variables)
      + Filled(raw, next, end + 1, variables)
    case _ => Literal(raw, cursor, |raw|)
  }

  /** A placeholder that can be replaced by text. */
  predicate ScalarPlaceholder(config: RuntimeConfig, name: string, variables: Contents) {
    && ByteLen(name) <= config.maxInterpolatedBytes
    && ValidVariableName(name)
    && Find(variables, name).Some?
    && Find(variables, name).value.ScalarText().Some?
  }

  predicate AllScalar(config: RuntimeConfig, raw: string, t: Template, variables: Contents) {
    match t
    case Tail => true
    case Dangling(_) => false
    case Hole(start, end, next) =>
      ScalarPlaceholder(config, Literal(raw, start + 2, end), variables) && AllScalar(config, raw, next, variables)
  }

  lemma PlaceholderIsExact(config: RuntimeConfig, name: string, variables: Contents, location: ResolutionLocation)
    ensures var text := PlaceholderText(config, name, variables, location);
            && (text.Ok? <==> ScalarPlaceholder(config, name, variables))
            && (text.Ok? ==> text.value == ScalarOf(name, variables))
  {
  }

  lemma AppendedLengths(output: string, literal: string, text: string, rest: string)
    ensures ByteLen(output + literal) == ByteLen(output) + ByteLen(literal)
    ensures ByteLen(output + literal + text) == ByteLen(output) + ByteLen(literal) + ByteLen(text)
    ensures ByteLen(literal + text + rest) == ByteLen(literal) + ByteLen(text) + ByteLen(rest)
    ensures output + literal + text + rest == output + (literal + text + rest)
  {
    hide ByteLen;
    ByteLenAppend(output, literal);
    ByteLenAppend(output + literal, text);
    ByteLenAppend(literal, text);
    ByteLenAppend(literal + text, rest);
  }

  lemma {:induction false} SubstituteIsExact(
    config: RuntimeConfig, raw: string, t: Template, cursor: nat, variables: Contents, location: ResolutionLocation,
    output: string)
    ensures var filled := Filled(raw, t, cursor, variables);
            var r := Substitute(config, raw, t, cursor, variables, location, output);
            && (r.Ok? <==> AllScalar(config, raw, t, variables)
                           && ByteLen(output) + ByteLen(filled) <= config.maxInterpolatedBytes)
            && (r.Ok? ==> r.value == output + filled)
    decreases t
  {
    hide ByteLen;
    hide PlaceholderText;
    hide ScalarPlaceholder;
    hide ScalarOf;
    hide Literal;
    match t
    case Tail =>
    case Dangling(_) =>
    case Hole(start, end, next) =>
      var name := Literal(raw, start + 2, end);
      var literal := Literal(raw, cursor, start);
      var text := PlaceholderText(config, name, variables, location);
      PlaceholderIsExact(config, name, variables, location);
      if text.Ok? {
        var rest := Filled(raw, next, end + 1, variables);
        AppendedLengths(output, literal, text.value, rest);
        SubstituteIsExact(config, raw, next, end + 1, variables, location, output + literal + text.value);
      }
  }

  /**
   * Interpolation is one left-to-right substitution: it succeeds iff every placeholder is complete, defined, scalar and
   * short enough and the whole result fits, and then yields the literals and scalar texts in order.
   */
  lemma InterpolationIsExact(config: RuntimeConfig, raw: string, variables: Contents, location: ResolutionLocation)
    ensures var filled := Filled(raw, Split(raw, 0), 0, variables);
            var r := Interpolated(config, raw, variables, location);
            && (r.Ok? <==> AllScalar(config, raw, Split(raw, 0), variables)
                           && ByteLen(filled) <= config.maxInterpolatedBytes)
            && (r.Ok? ==> r.value == filled)
  {
    hide ByteLen;
    var t := Split(raw, 0);
    SubstituteIsExact(config, raw, t, 0, variables, location, "");
    var filled := Filled(raw, t, 0, variables);
    ByteLenAppend("", filled);
    assert "" + filled == filled;
  }
}
