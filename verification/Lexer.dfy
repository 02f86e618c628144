/** Lexical analysis, crates/rettp-parser/src/lexer/scanner.rs. Characters are counted singly, spans in UTF-8 bytes. */
module Lexing {
  import opened Wrappers
  import opened Text
  import opened JsonValues
  import opened Domain
  import opened Tokens

  datatype LexerErrorKind =
    | UnexpectedCharacter(character: char)
    | UnterminatedString
    | InvalidEscapeSequence(character: char)
    | InvalidInteger(value: string)
    | InvalidNumber(value: string)

  /** A half-open range of bytes. */
  datatype Span = Span(start: nat, end: nat)

  datatype Token = Token(kind: TokenKind, span: Span)

  datatype LexerError = LexerError(kind: LexerErrorKind, span: Span)

  /** The finite values of decimal texts; reading them belongs to the standard library and is left open. */
  const FLOAT_VALUES: map<string, real>

  predicate IsDigit(c: char) {
    '0' <= c <= '9'
  }

  predicate IsIdentifierStart(c: char) {
    'a' <= c <= 'z' || 'A' <= c <= 'Z' || c == '_'
  }

  predicate IsIdentifierContinue(c: char) {
    IsIdentifierStart(c) || IsDigit(c)
  }

  predicate IsBlank(c: char) {
    c == ' ' || c == '\r' || c == '\t' || c == '\n'
  }

  /** The single-character tokens. */
  function Symbol(c: char): Option<TokenKind> {
    if c == '{' then Some(LEFT_BRACE)
    else if c == '}' then Some(RIGHT_BRACE)
    else if c == '[' then Some(LEFT_BRACKET)
    else if c == ']' then Some(RIGHT_BRACKET)
    else if c == ':' then Some(COLON)
    else if c == '=' then Some(EQUAL)
    else if c == ',' then Some(COMMA)
    else None
  }

  /** The decoded character of an escape sequence. */
  function Unescape(c: char): Option<char> {
    if c == '"' then Some('"')
    else if c == '\\' then Some('\\')
    else if c == 'n' then Some('\n')
    else if c == 'r' then Some('\r')
    else if c == 't' then Some('\t')
    else None
  }

  // ---- integers ----

  function DigitsValue(digits: string): nat
    requires forall k | 0 <= k < |digits| :: IsDigit(digits[k])
  {
    if digits == "" then 0
    else
      var last := digits[|digits| - 1];
      assert IsDigit(last);
      DigitsValue(digits[..|digits| - 1]) * 10 + (last as int - '0' as int)
  }

  /** `str::parse::<i64>` on the texts the scanner collects: an optional sign and digits. */
  function ParseInteger(raw: string): Option<I64> {
    var digits := if raw != "" && raw[0] == '-' then raw[1..] else raw;
    if digits == "" || exists k | 0 <= k < |digits| :: !IsDigit(digits[k]) then None
    else
      var magnitude: int := DigitsValue(digits);
      var value := if raw[0] == '-' then -magnitude else magnitude;
      if -0x8000_0000_0000_0000 <= value <= 0x7fff_ffff_ffff_ffff then Some(value) else None
  }

  /** `str::parse::<f64>`, for finite results. */
  function ParseNumber(raw: string): Option<Float64> {
    if raw in FLOAT_VALUES then Some(Finite(FLOAT_VALUES[raw])) else None
  }

  // ---- lexemes ----

  /** What starts at a position: nothing of interest, a token, or an error whose span ends at `end`. */
  datatype Found = Blank | Good(kind: TokenKind) | Bad(error: LexerErrorKind, end: nat)

  /** Scanning goes on at `next`. */
  datatype Lexeme = Lexeme(found: Found, next: nat)

  function CharAtOrNone(source: string, i: nat): Option<char> {
    if i < |source| then Some(source[i]) else None
  }

  function DigitsEnd(source: string, i: nat): (r: nat)
    requires i <= |source|
    ensures i <= r <= |source| && forall k | i <= k < r :: IsDigit(source[k])
    decreases |source| - i
  {
    if i == |source| || !IsDigit(source[i]) then i else DigitsEnd(source, i + 1)
  }

  function IdentifierEnd(source: string, i: nat): (r: nat)
    requires i <= |source|
    ensures i <= r <= |source|
    decreases |source| - i
  {
    if i == |source| || !IsIdentifierContinue(source[i]) then i else IdentifierEnd(source, i + 1)
  }

  function LineEnd(source: string, i: nat): (r: nat)
    requires i <= |source|
    ensures i <= r <= |source|
    decreases |source| - i
  {
    if i == |source| || source[i] == '\n' then i else LineEnd(source, i + 1)
  }

  /** Behind the closing quote, or in front of the end of the line. */
  function RecoveryEnd(source: string, i: nat): (r: nat)
    requires i <= |source|
    ensures i <= r <= |source|
    decreases |source| - i
  {
    if i == |source| || source[i] == '\n' then i
    else if source[i] == '"' then i + 1
    else RecoveryEnd(source, i + 1)
  }

  /** A number that starts at `start` and whose digits go on at `i`. */
  function NumberFrom(source: string, start: nat, i: nat): (r: Lexeme)
    requires start <= i <= |source|
    ensures i <= r.next <= |source| && (r.found.Bad? ==> i <= r.found.end <= r.next)
  {
    var whole := DigitsEnd(source, i);
    var isFloat := whole + 1 < |source| && source[whole] == '.' && IsDigit(source[whole + 1]);
    if isFloat then
      var end := DigitsEnd(source, whole + 1);
      var raw := source[start..end];
      match ParseNumber(raw)
      case Some(value) => Lexeme(Good(NumberLiteral(value)), end)
      case None => Lexeme(Bad(InvalidNumber(raw), end), end)
    else
      var raw := source[start..whole];
      match ParseInteger(raw)
      case Some(value) => Lexeme(Good(IntegerLiteral(value)), whole)
      case None => Lexeme(Bad(InvalidInteger(raw), whole), whole)
  }

  /** A string whose content goes on at `i`, behind the decoded `value`. */
  function StringFrom(source: string, i: nat, value: string): (r: Lexeme)
    requires i <= |source|
    ensures i <= r.next <= |source| && (r.found.Bad? ==> i <= r.found.end <= r.next)
    decreases |source| - i
  {
    if i == |source| || source[i] == '\n' then Lexeme(Bad(UnterminatedString, i), i)
    else if source[i] == '"' then Lexeme(Good(StringLiteral(value)), i + 1)
    else if source[i] != '\\' then StringFrom(source, i + 1, value + [source[i]])
    else if i + 1 == |source| then Lexeme(Bad(UnterminatedString, i + 1), i + 1)
    else
      match Unescape(source[i + 1])
      case Some(c) => StringFrom(source, i + 2, value + [c])
      case None => Lexeme(Bad(InvalidEscapeSequence(source[i + 1]), i + 2), RecoveryEnd(source, i + 2))
  }

  function LexemeAt(source: string, i: nat): (r: Lexeme)
    requires i < |source|
    ensures i < r.next <= |source| && (r.found.Bad? ==> i < r.found.end <= r.next)
  {
    var c := source[i];
    var following := CharAtOrNone(source, i + 1);
    if IsBlank(c) then Lexeme(Blank, i + 1)
    else if Symbol(c).Some? then Lexeme(Good(Symbol(c).value), i + 1)
    else if c == '-' && following == Some('>') then Lexeme(Good(ARROW), i + 2)
    else if c == '-' && following.Some? && IsDigit(following.value) then NumberFrom(source, i, i + 1)
    else if c == '"' then StringFrom(source, i + 1, "")
    else if c == '#' then Lexeme(Blank, LineEnd(source, i + 1))
    else if c == '/' && following == Some('/') then Lexeme(Blank, LineEnd(source, i + 2))
    else if IsDigit(c) then NumberFrom(source, i, i + 1)
    else if IsIdentifierStart(c) then
      var end := IdentifierEnd(source, i + 1);
      Lexeme(Good(KeywordOrIdentifier(source[i..end])), end)
    else Lexeme(Bad(UnexpectedCharacter(c), i + 1), i + 1)
  }

  // ---- the whole source ----

  /** The byte offset of a character. */
  function Offset(source: string, i: nat): nat {
    if i <= |source| then ByteLen(source[..i]) else 0
  }

  lemma OffsetStep(source: string, i: nat)
    requires i < |source|
    ensures Offset(source, i + 1) == Offset(source, i) + Width(source[i])
  {
    assert source[..i + 1][..i] == source[..i];
  }

  function SpanOf(source: string, start: nat, end: nat): Span {
    Span(Offset(source, start), Offset(source, end))
  }

  datatype LexResult = LexResult(tokens: seq<Token>, errors: seq<LexerError>)

  /** The result after one more lexeme. */
  function With(result: LexResult, source: string, i: nat, lexeme: Lexeme): LexResult {
    match lexeme.found
    case Blank => result
    case Good(kind) => result.(tokens := result.tokens + [Token(kind, SpanOf(source, i, lexeme.next))])
    case Bad(error, end) => result.(errors := result.errors + [LexerError(error, SpanOf(source, i, end))])
  }

  /** Everything from `i` on, behind what has been found already, and the end marker. */
  function Scanned(source: string, i: nat, result: LexResult): LexResult
    requires i <= |source|
    decreases |source| - i
  {
    if i == |source| then result.(tokens := result.tokens + [Token(EOF, SpanOf(source, i, i))])
    else Scanned(source, LexemeAt(source, i).next, With(result, source, i, LexemeAt(source, i)))
  }

  class Lexer {
    const source: string
    var start: nat
    var current: nat
    var position: nat // the character at byte offset `current`
    var first: nat // the character at byte offset `start`
    var tokens: seq<Token>
    var errors: seq<LexerError>

    constructor (source: string)
      ensures Valid() && this.source == source && position == 0 && Result() == LexResult([], [])
    {
      this.source := source;
      start, current, position, first := 0, 0, 0, 0;
      tokens, errors := [], [];
    }

    ghost predicate Valid()
      reads this
    {
      && first <= position <= |source|
      && start == Offset(source, first) && current == Offset(source, position)
    }

    function Result(): LexResult
      reads this
    {
      LexResult(tokens, errors)
    }

    function PeekChar(): Option<char>
      reads this
    {
      CharAtOrNone(source, position)
    }

    method Advance() returns (c: char)
      requires Valid() && position < |source|
      modifies `current, `position
      ensures Valid() && position == old(position) + 1 && c == source[old(position)]
    {
      OffsetStep(source, position);
      c := source[position];
      current := current + Width(c);
      position := position + 1;
    }

    method AddToken(kind: TokenKind)
      requires Valid()
      modifies `tokens
      ensures tokens == old(tokens) + [Token(kind, SpanOf(source, first, position))]
    {
      tokens := tokens + [Token(kind, Span(start, current))];
    }

    method AddError(kind: LexerErrorKind)
      requires Valid()
      modifies `errors
      ensures errors == old(errors) + [LexerError(kind, SpanOf(source, first, position))]
    {
      errors := errors + [LexerError(kind, Span(start, current))];
    }

    /** All tokens and errors of the source. */
    method Scan()
      requires Valid() && position == 0 && Result() == LexResult([], [])
      modifies this
      ensures Result() == Scanned(source, 0, LexResult([], []))
    {
      hide LexemeAt;
      while position < |source|
        invariant Valid() && Scanned(source, position, Result()) == Scanned(source, 0, LexResult([], []))
        decreases |source| - position
      {
        start, first := current, position;
        ScanToken();
      }
      tokens := tokens + [Token(EOF, Span(current, current))];
    }

    method ScanToken()
      requires Valid() && first == position < |source|
      modifies `current, `position, `tokens, `errors
      ensures Valid() && position == LexemeAt(source, old(position)).next
      ensures Result() == With(old(Result()), source, first, LexemeAt(source, first))
    {
      hide Offset;
      hide KeywordOrIdentifier;
      hide NumberFrom;
      hide StringFrom;
      var c := Advance();
      if IsBlank(c) {
      } else if Symbol(c).Some? {
        AddToken(Symbol(c).value);
      } else if c == '-' {
        if PeekChar() == Some('>') {
          var _ := Advance();
          AddToken(ARROW);
        } else if PeekChar().Some? && IsDigit(PeekChar().value) {
          ScanNumber();
        } else {
          AddError(UnexpectedCharacter(c));
        }
      } else if c == '"' {
        ScanString();
      } else if c == '#' {
        SkipLineComment();
      } else if c == '/' {
        if PeekChar() == Some('/') {
          var _ := Advance();
          SkipLineComment();
        } else {
          AddError(UnexpectedCharacter(c));
        }
      } else if IsDigit(c) {
        ScanNumber();
      } else if IsIdentifierStart(c) {
        ScanIdentifier();
      } else {
        AddError(UnexpectedCharacter(c));
      }
    }

    method ScanIdentifier()
      requires Valid()
      modifies `current, `position, `tokens
      ensures Valid() && position == IdentifierEnd(source, old(position))
      ensures tokens
           == old(tokens) + [Token(KeywordOrIdentifier(source[first..position]), SpanOf(source, first, position))]
    {
      while PeekChar().Some? && IsIdentifierContinue(PeekChar().value)
        invariant Valid() && tokens == old(tokens)
        invariant IdentifierEnd(source, position) == IdentifierEnd(source, old(position))
        decreases |source| - position
      {
        var _ := Advance();
      }
      AddToken(KeywordOrIdentifier(source[first..position]));
    }

    method SkipDigits()
      requires Valid()
      modifies `current, `position
      ensures Valid() && position == DigitsEnd(source, old(position))
    {
      while PeekChar().Some? && IsDigit(PeekChar().value)
        invariant Valid() && DigitsEnd(source, position) == DigitsEnd(source, old(position))
        decreases |source| - position
      {
        var _ := Advance();
      }
    }

    method ScanNumber()
      requires Valid()
      modifies `current, `position, `tokens, `errors
      ensures Valid() && position == NumberFrom(source, first, old(position)).next
      ensures Result() == With(old(Result()), source, first, NumberFrom(source, first, old(position)))
    {
      hide Offset;
      hide ParseNumber;
      hide ParseInteger;
      SkipDigits();
      var following := CharAtOrNone(source, position + 1);
      var isFloat := PeekChar() == Some('.') && following.Some? && IsDigit(following.value);
      if isFloat {
        var _ := Advance();
        SkipDigits();
      }
      var raw := source[first..position];
      if isFloat {
        var value := ParseNumber(raw);
        if value.Some? {
          AddToken(NumberLiteral(value.value));
        } else {
          AddError(InvalidNumber(raw));
        }
      } else {
        var value := ParseInteger(raw);
        if value.Some? {
          AddToken(IntegerLiteral(value.value));
        } else {
          AddError(InvalidInteger(raw));
        }
      }
    }

    method ScanString()
      requires Valid()
      modifies `current, `position, `tokens, `errors
      ensures Valid() && position == StringFrom(source, old(position), "").next
      ensures Result() == With(old(Result()), source, first, StringFrom(source, old(position), ""))
    {
      hide Offset;
      var value := "";
      ghost var whole := StringFrom(source, position, "");
      while true
        invariant Valid() && Result() == old(Result()) && StringFrom(source, position, value) == whole
        decreases |source| - position
      {
        var peeked := PeekChar();
        if peeked.None? || peeked.value == '\n' {
          AddError(UnterminatedString);
          return;
        }
        if peeked.value == '"' {
          var _ := Advance();
          AddToken(StringLiteral(value));
          return;
        }
        var c := Advance();
        if c != '\\' {
          value := value + [c];
        } else {
          if PeekChar().None? {
            AddError(UnterminatedString);
            return;
          }
          var escaped := Advance();
          var decoded := Unescape(escaped);
          if decoded.None? {
            AddError(InvalidEscapeSequence(escaped));
            RecoverString();
            return;
          }
          value := value + [decoded.value];
        }
      }
    }

    method RecoverString()
      requires Valid()
      modifies `current, `position
      ensures Valid() && position == RecoveryEnd(source, old(position))
    {
      while PeekChar().Some?
        invariant Valid() && RecoveryEnd(source, position) == RecoveryEnd(source, old(position))
        decreases |source| - position
      {
        if PeekChar() == Some('"') {
          var _ := Advance();
          return;
        }
        if PeekChar() == Some('\n') {
          return;
        }
        var _ := Advance();
      }
    }

    method SkipLineComment()
      requires Valid()
      modifies `current, `position
      ensures Valid() && position == LineEnd(source, old(position))
    {
      while PeekChar().Some?
        invariant Valid() && LineEnd(source, position) == LineEnd(source, old(position))
        decreases |source| - position
      {
        if PeekChar() == Some('\n') {
          return;
        }
        var _ := Advance();
      }
    }
  }

  /** `lex`. */
  method Lex(source: string) returns (result: LexResult)
    ensures result == Scanned(source, 0, LexResult([], []))
  {
    var lexer := new Lexer(source);
    lexer.Scan();
    result := lexer.Result();
  }
}
