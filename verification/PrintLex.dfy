/** Lexing undoes printing, for all tokens but decimal numbers. */
module PrintLex {
  import opened Wrappers
  import opened JsonValues
  import opened Domain
  import opened Tokens
  import opened Grammar
  import opened Lexing
  import opened Variables

  // ---- printing ----

  /** The word of a keyword. */
  function WordOf(kind: TokenKind): Option<string> {
    if kind == CORE then Some("core")
    else if kind == PIPELINE then Some("pipeline")
    else if kind == TEST then Some("test")
    else if kind == REQUEST then Some("request")
    else if kind == EXPECT then Some("expect")
    else if kind == BODY then Some("body")
    else if kind == HEADERS then Some("headers")
    else if kind == QUERY then Some("query")
    else if kind.Identifier? || kind.StringLiteral? then None
    else KeyText(kind)
  }

  function EscapeOf(c: char): string {
    if c == '"' then "\\\""
    else if c == '\\' then "\\\\"
    else if c == '\n' then "\\n"
    else if c == '\r' then "\\r"
    else if c == '\t' then "\\t"
    else [c]
  }

  function Escaped(text: string): string {
    if text == "" then "" else EscapeOf(text[0]) + Escaped(text[1..])
  }

  function SymbolText(kind: TokenKind): string {
    if kind == LEFT_BRACE then "{"
    else if kind == RIGHT_BRACE then "}"
    else if kind == LEFT_BRACKET then "["
    else if kind == RIGHT_BRACKET then "]"
    else if kind == COLON then ":"
    else if kind == EQUAL then "="
    else if kind == COMMA then ","
    else "->"
  }

  function TokenText(kind: TokenKind): string {
    if kind.Identifier? then kind.name
    else if kind.StringLiteral? then "\"" + Escaped(kind.text) + "\""
    else if kind.IntegerLiteral? then IntText(kind.n)
    else if WordOf(kind).Some? then WordOf(kind).value
    else SymbolText(kind)
  }

  /** The texts of the tokens, each followed by a space. */
  function Printed(kinds: seq<TokenKind>): string {
    if kinds == [] then "" else TokenText(kinds[0]) + " " + Printed(kinds[1..])
  }

  /** ASCII names that are no keywords. */
  predicate IsName(name: string) {
    && IsWord(name)
    && KeywordOrIdentifier(name) == Identifier(name)
  }

  predicate IsWord(word: string) {
    && word != ""
    && IsIdentifierStart(word[0])
    && forall k | 0 <= k < |word| :: IsIdentifierContinue(word[k])
  }

  predicate Printable(kind: TokenKind) {
    !kind.NumberLiteral? && kind != EOF && (kind.Identifier? ==> IsName(kind.name))
  }

  // ---- positions in the text ----

  predicate TextAt(source: string, i: nat, s: string) {
    i + |s| <= |source| && source[i..i + |s|] == s
  }

  lemma TextAppend(source: string, i: nat, a: string, b: string)
    requires TextAt(source, i, a + b)
    ensures TextAt(source, i, a) && TextAt(source, i + |a|, b)
  {
    var s := source[i..i + |a + b|];
    assert s[..|a|] == a && s[|a|..] == b;
    assert source[i..i + |a|] == s[..|a|] && source[i + |a|..i + |a| + |b|] == s[|a|..];
  }

  lemma TextChar(source: string, i: nat, s: string, k: nat)
    requires TextAt(source, i, s) && k < |s|
    ensures i + k < |source| && source[i + k] == s[k]
  {
    assert source[i..i + |s|][k] == source[i + k];
  }

  // ---- words ----

  lemma KeywordsAreWords(kind: TokenKind)
    requires WordOf(kind).Some?
    ensures KeywordOrIdentifier(WordOf(kind).value) == kind && IsWord(WordOf(kind).value)
  {
    hide KeywordOrIdentifier;
    hide IsWord;
    hide VerbText;
    if kind.Verb? {
      VerbsAreWords(kind.verb);
    } else {
      BlockWords();
      SectionWords();
      PartWords();
      BooleanWords();
      NullWords();
      TextWords();
      NumberWords();
      ContainerWords();
    }
  }

  lemma BlockWords()
    ensures KeywordOrIdentifier("core") == CORE && IsWord("core")
    ensures KeywordOrIdentifier("pipeline") == PIPELINE && IsWord("pipeline")
    ensures KeywordOrIdentifier("test") == TEST && IsWord("test")
  {
  }

  lemma SectionWords()
    ensures KeywordOrIdentifier("body") == BODY && IsWord("body")
    ensures KeywordOrIdentifier("headers") == HEADERS && IsWord("headers")
    ensures KeywordOrIdentifier("query") == QUERY && IsWord("query")
  {
  }

  lemma PartWords()
    ensures KeywordOrIdentifier("request") == REQUEST && IsWord("request")
    ensures KeywordOrIdentifier("expect") == EXPECT && IsWord("expect")
    ensures KeywordOrIdentifier("status") == STATUS && IsWord("status")
    ensures KeywordOrIdentifier("exact") == EXACT && IsWord("exact")
  {
  }

  lemma BooleanWords()
    ensures KeywordOrIdentifier("true") == TRUE && IsWord("true")
    ensures KeywordOrIdentifier("false") == FALSE && IsWord("false")
  {
  }

  lemma NullWords()
    ensures KeywordOrIdentifier("null") == NULL && IsWord("null")
  {
  }

  lemma TextWords()
    ensures KeywordOrIdentifier("string") == TYPE_STRING && IsWord("string")
    ensures KeywordOrIdentifier("boolean") == TYPE_BOOLEAN && IsWord("boolean")
  {
  }

  lemma NumberWords()
    ensures KeywordOrIdentifier("integer") == TYPE_INTEGER && IsWord("integer")
    ensures KeywordOrIdentifier("number") == TYPE_NUMBER && IsWord("number")
  {
  }

  lemma ContainerWords()
    ensures KeywordOrIdentifier("object") == TYPE_OBJECT && IsWord("object")
    ensures KeywordOrIdentifier("array") == TYPE_ARRAY && IsWord("array")
  {
  }

  lemma VerbsAreWords(verb: HttpMethod)
    ensures KeywordOrIdentifier(VerbText(verb)) == Verb(verb) && IsWord(VerbText(verb))
  {
    match verb
    case GET =>
    case POST =>
    case PUT =>
    case PATCH =>
    case DELETE =>
    case HEAD =>
    case OPTIONS =>
  }

  lemma {:induction false} IdentifierEndIs(source: string, i: nat, e: nat)
    requires i <= e < |source| && !IsIdentifierContinue(source[e])
    requires forall k | i <= k < e :: IsIdentifierContinue(source[k])
    ensures IdentifierEnd(source, i) == e
    decreases e - i
  {
    if i < e {
      IdentifierEndIs(source, i + 1, e);
    }
  }

  lemma WordLexes(source: string, i: nat, word: string)
    requires TextAt(source, i, word) && IsWord(word)
    requires i + |word| < |source| && source[i + |word|] == ' '
    ensures LexemeAt(source, i) == Lexeme(Good(KeywordOrIdentifier(word)), i + |word|)
  {
    hide KeywordOrIdentifier;
    hide NumberFrom;
    hide StringFrom;
    forall k | 0 <= k < |word| ensures source[i + k] == word[k] {
      TextChar(source, i, word, k);
    }
    forall k | i + 1 <= k < i + |word| ensures IsIdentifierContinue(source[k]) {
      assert source[i + (k - i)] == word[k - i];
    }
    assert source[i + 0] == word[0];
    IdentifierEndIs(source, i + 1, i + |word|);
  }

  // ---- integers ----

  predicate AllDigits(s: string) {
    forall k | 0 <= k < |s| :: IsDigit(s[k])
  }

  lemma {:induction false} NatTextIsDigits(n: nat)
    ensures var s := NatText(n); s != "" && AllDigits(s) && DigitsValue(s) == n
    decreases n
  {
    var digit := (n % 10 + '0' as int) as char;
    var s := NatText(n);
    if n >= 10 {
      NatTextIsDigits(n / 10);
      assert s == NatText(n / 10) + [digit];
    } else {
      assert s == [digit];
    }
    var last := s[|s| - 1];
    assert last == digit && IsDigit(last);
    DigitsSnoc(s);
    assert s[..|s| - 1] == if n >= 10 then NatText(n / 10) else "";
  }

  lemma DigitsSnoc(s: string)
    requires s != "" && AllDigits(s)
    ensures DigitsValue(s) == DigitsValue(s[..|s| - 1]) * 10 + (s[|s| - 1] as int - '0' as int)
  {
  }

  /** The text of an integer: a sign if negative, and digits that read as the integer. */
  lemma IntegerText(n: I64)
    ensures var s := IntText(n);
            && ParseInteger(s) == Some(n)
            && |s| > (if n < 0 then 1 else 0)
            && (n < 0 ==> s[0] == '-')
            && forall k | (if n < 0 then 1 else 0) <= k < |s| :: IsDigit(s[k])
  {
    var m: int := n;
    var digits := NatText(if m < 0 then -m else m);
    NatTextIsDigits(if m < 0 then -m else m);
    var s := IntText(n);
    if n < 0 {
      assert s[1..] == digits;
      assert forall k | 1 <= k < |s| :: s[k] == digits[k - 1];
    } else {
      assert IsDigit(s[0]);
    }
  }

  lemma {:induction false} DigitsEndIs(source: string, i: nat, e: nat)
    requires i <= e < |source| && !IsDigit(source[e])
    requires forall k | i <= k < e :: IsDigit(source[k])
    ensures DigitsEnd(source, i) == e
    decreases e - i
  {
    if i < e {
      DigitsEndIs(source, i + 1, e);
    }
  }

  lemma IntegerLexes(source: string, i: nat, n: I64)
    requires TextAt(source, i, IntText(n))
    requires i + |IntText(n)| < |source| && source[i + |IntText(n)|] == ' '
    ensures LexemeAt(source, i) == Lexeme(Good(IntegerLiteral(n)), i + |IntText(n)|)
  {
    hide IntText;
    hide ParseInteger;
    hide LexemeAt;
    hide DigitsEnd;
    var s := IntText(n);
    IntegerText(n);
    forall k | 0 <= k < |s| ensures source[i + k] == s[k] {
      TextChar(source, i, s, k);
    }
    forall k | i + 1 <= k < i + |s| ensures IsDigit(source[k]) {
      assert source[i + (k - i)] == s[k - i];
    }
    assert source[i + 0] == s[0];
    DigitsEndIs(source, i + 1, i + |s|);
    assert source[i..i + |s|] == s;
    assert NumberFrom(source, i, i + 1) == Lexeme(Good(IntegerLiteral(n)), i + |s|);
    NumberStarts(source, i);
  }

  lemma NumberStarts(source: string, i: nat)
    requires i < |source|
    requires IsDigit(source[i]) || (source[i] == '-' && i + 1 < |source| && IsDigit(source[i + 1]))
    ensures LexemeAt(source, i) == NumberFrom(source, i, i + 1)
  {
    hide NumberFrom;
    hide StringFrom;
    hide KeywordOrIdentifier;
  }

  // ---- strings ----

  lemma EscapedCharLexes(source: string, i: nat, c: char, value: string)
    requires TextAt(source, i, EscapeOf(c))
    ensures StringFrom(source, i, value) == StringFrom(source, i + |EscapeOf(c)|, value + [c])
  {
    hide TextAt;
    var s := EscapeOf(c);
    TextChar(source, i, s, 0);
    if |s| == 2 {
      TextChar(source, i, s, 1);
    }
  }

  lemma {:induction false} StringContentLexes(source: string, i: nat, text: string, value: string)
    requires TextAt(source, i, Escaped(text))
    requires i + |Escaped(text)| < |source| && source[i + |Escaped(text)|] == '"'
    ensures StringFrom(source, i, value) == Lexeme(Good(StringLiteral(value + text)), i + |Escaped(text)| + 1)
    decreases |text|
  {
    hide TextAt;
    hide EscapeOf;
    if text == "" {
      assert value + text == value;
    } else {
      hide StringFrom;
      var first, rest := EscapeOf(text[0]), Escaped(text[1..]);
      TextAppend(source, i, first, rest);
      EscapedCharLexes(source, i, text[0], value);
      StringContentLexes(source, i + |first|, text[1..], value + [text[0]]);
      assert value + [text[0]] + text[1..] == value + text;
    }
  }

  lemma StringLexes(source: string, i: nat, text: string)
    requires TextAt(source, i, "\"" + Escaped(text) + "\"")
    ensures LexemeAt(source, i) == Lexeme(Good(StringLiteral(text)), i + |Escaped(text)| + 2)
  {
    hide TextAt;
    hide Escaped;
    hide StringFrom;
    TextAppend(source, i, "\"" + Escaped(text), "\"");
    TextAppend(source, i, "\"", Escaped(text));
    TextChar(source, i, "\"", 0);
    TextChar(source, i + 1 + |Escaped(text)|, "\"", 0);
    StringContentLexes(source, i + 1, text, "");
    assert "" + text == text;
  }

  lemma SymbolLexes(source: string, i: nat, kind: TokenKind)
    requires kind == ARROW || (|SymbolText(kind)| == 1 && Symbol(SymbolText(kind)[0]) == Some(kind))
    requires TextAt(source, i, SymbolText(kind))
    ensures LexemeAt(source, i) == Lexeme(Good(kind), i + |SymbolText(kind)|)
  {
    hide TextAt;
    hide StringFrom;
    hide NumberFrom;
    hide KeywordOrIdentifier;
    TextChar(source, i, SymbolText(kind), 0);
    if kind == ARROW {
      TextChar(source, i, "->", 0);
      TextChar(source, i, "->", 1);
    } else {
      hide SymbolText;
      assert source[i] == SymbolText(kind)[0];
      assert !IsBlank(source[i]);
    }
  }

  lemma OnlySymbols(kind: TokenKind)
    requires Printable(kind) && !kind.Identifier? && !kind.StringLiteral? && !kind.IntegerLiteral? && WordOf(kind).None?
    ensures kind == ARROW || (|SymbolText(kind)| == 1 && Symbol(SymbolText(kind)[0]) == Some(kind))
    ensures TokenText(kind) == SymbolText(kind)
  {
    hide IsName;
  }

  lemma TokenLexes(source: string, i: nat, kind: TokenKind)
    requires Printable(kind) && TextAt(source, i, TokenText(kind) + " ")
    ensures LexemeAt(source, i) == Lexeme(Good(kind), i + |TokenText(kind)|)
    ensures source[i + |TokenText(kind)|] == ' '
  {
    hide TextAt;
    hide LexemeAt;
    hide IsWord;
    hide KeywordOrIdentifier;
    hide WordOf;
    TextAppend(source, i, TokenText(kind), " ");
    TextChar(source, i + |TokenText(kind)|, " ", 0);
    if kind.Identifier? {
      WordLexes(source, i, kind.name);
    } else if kind.StringLiteral? {
      StringLexes(source, i, kind.text);
    } else if kind.IntegerLiteral? {
      IntegerLexes(source, i, kind.n);
    } else if WordOf(kind).Some? {
      KeywordsAreWords(kind);
      WordLexes(source, i, WordOf(kind).value);
    } else {
      OnlySymbols(kind);
      SymbolLexes(source, i, kind);
    }
  }

  // ---- whole texts ----

  function KindsOf(tokens: seq<Token>): (r: seq<TokenKind>)
    ensures |r| == |tokens| && forall k | 0 <= k < |r| :: r[k] == tokens[k].kind
  {
    seq(|tokens|, k requires 0 <= k < |tokens| => tokens[k].kind)
  }

  lemma KindsAppend(tokens: seq<Token>, token: Token)
    ensures KindsOf(tokens + [token]) == KindsOf(tokens) + [token.kind]
  {
  }

  lemma {:induction false} PrintedScans(source: string, i: nat, kinds: seq<TokenKind>, result: LexResult)
    requires TextAt(source, i, Printed(kinds)) && i + |Printed(kinds)| == |source|
    requires forall k | 0 <= k < |kinds| :: Printable(kinds[k])
    ensures var r := Scanned(source, i, result);
            r.errors == result.errors && KindsOf(r.tokens) == KindsOf(result.tokens) + kinds + [EOF]
    decreases |kinds|
  {
    hide TextAt;
    hide LexemeAt;
    hide TokenText;
    hide Printable;
    hide Offset;
    if kinds == [] {
      KindsAppend(result.tokens, Token(EOF, SpanOf(source, i, i)));
      assert KindsOf(result.tokens) + kinds == KindsOf(result.tokens);
    } else {
      var first, rest := TokenText(kinds[0]) + " ", Printed(kinds[1..]);
      TextAppend(source, i, first, rest);
      TokenLexes(source, i, kinds[0]);
      var end := i + |TokenText(kinds[0])|;
      SpaceIsBlank(source, end);
      var next := With(result, source, i, LexemeAt(source, i));
      KindsAppend(result.tokens, Token(kinds[0], SpanOf(source, i, end)));
      PrintedScans(source, end + 1, kinds[1..], next);
      TwoSteps(source, i, result);
      assert KindsOf(result.tokens) + [kinds[0]] + kinds[1..] == KindsOf(result.tokens) + kinds;
    }
  }

  lemma SpaceIsBlank(source: string, i: nat)
    requires i < |source| && source[i] == ' '
    ensures LexemeAt(source, i) == Lexeme(Blank, i + 1)
  {
  }

  /** A token and the blank behind it. */
  lemma TwoSteps(source: string, i: nat, result: LexResult)
    requires i < |source| && LexemeAt(source, i).next < |source|
    requires LexemeAt(source, LexemeAt(source, i).next) == Lexeme(Blank, LexemeAt(source, i).next + 1)
    ensures Scanned(source, i, result)
            == Scanned(source, LexemeAt(source, i).next + 1, With(result, source, i, LexemeAt(source, i)))
  {
    hide LexemeAt;
    var end := LexemeAt(source, i).next;
    var next := With(result, source, i, LexemeAt(source, i));
    assert With(next, source, end, LexemeAt(source, end)) == next;
  }

  /** Printed tokens are read back as they are, without errors. */
  lemma LexingUndoesPrinting(kinds: seq<TokenKind>)
    requires forall k | 0 <= k < |kinds| :: Printable(kinds[k])
    ensures var r := Scanned(Printed(kinds), 0, LexResult([], []));
            r.errors == [] && KindsOf(r.tokens) == kinds + [EOF]
  {
    hide Printed;
    hide Printable;
    var source := Printed(kinds);
    assert source[0..|source|] == source;
    PrintedScans(source, 0, kinds, LexResult([], []));
    assert KindsOf([]) + kinds == kinds;
  }
}
