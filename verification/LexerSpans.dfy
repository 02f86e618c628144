/** What the spans of tokens and errors guarantee, for every source text. */
module LexerSpans {
  import opened Wrappers
  import opened Text
  import opened Tokens
  import opened Lexing

  // ---- byte offsets ----

  lemma {:induction false} OffsetGrows(source: string, i: nat, j: nat)
    requires i <= j <= |source|
    ensures Offset(source, i) + (j - i) <= Offset(source, j)
    decreases j - i
  {
    if i < j {
      OffsetGrows(source, i, j - 1);
      OffsetStep(source, j - 1);
    }
  }

  /** A byte offset between two characters, or at an end of the text. */
  ghost predicate IsBoundary(source: string, offset: nat) {
    exists i | 0 <= i <= |source| :: Offset(source, i) == offset
  }

  // ---- tokens and errors ----

  ghost predicate TokenOk(source: string, token: Token, upto: nat) {
    && token.kind != EOF
    && token.span.start < token.span.end <= Offset(source, upto)
    && IsBoundary(source, token.span.start) && IsBoundary(source, token.span.end)
  }

  ghost predicate ErrorOk(source: string, error: LexerError, upto: nat) {
    && error.span.start < error.span.end <= Offset(source, upto)
    && IsBoundary(source, error.span.start) && IsBoundary(source, error.span.end)
  }

  /** Everything found in front of character `upto` is in order. */
  ghost predicate FoundOk(source: string, result: LexResult, upto: nat) {
    && (forall k | 0 <= k < |result.tokens| :: TokenOk(source, result.tokens[k], upto))
    && (forall j, k | 0 <= j < k < |result.tokens| :: result.tokens[j].span.end <= result.tokens[k].span.start)
    && (forall k | 0 <= k < |result.errors| :: ErrorOk(source, result.errors[k], upto))
  }

  lemma NoEndMarkerInside(source: string, i: nat)
    requires i < |source|
    ensures LexemeAt(source, i).found != Good(EOF)
  {
    hide StringFrom;
    hide KeywordOrIdentifier;
    StringsAreStrings(source, i + 1, "");
    if IsIdentifierStart(source[i]) {
      WordsAreTokens(source[i..IdentifierEnd(source, i + 1)]);
    }
  }

  lemma WordsAreTokens(word: string)
    ensures KeywordOrIdentifier(word) != EOF
  {
  }

  lemma {:induction false} StringsAreStrings(source: string, i: nat, value: string)
    requires i <= |source|
    ensures StringFrom(source, i, value).found != Good(EOF)
    decreases |source| - i
  {
    if i < |source| {
      if source[i] != '\\' {
        StringsAreStrings(source, i + 1, value + [source[i]]);
      } else if i + 1 < |source| && Unescape(source[i + 1]).Some? {
        StringsAreStrings(source, i + 2, value + [Unescape(source[i + 1]).value]);
      }
    }
  }

  lemma StillOk(source: string, result: LexResult, i: nat, j: nat)
    requires i <= j <= |source| && FoundOk(source, result, i)
    ensures FoundOk(source, result, j)
    ensures forall k | 0 <= k < |result.tokens| :: result.tokens[k].span.end <= Offset(source, i)
  {
    hide Offset;
    hide IsBoundary;
    OffsetGrows(source, i, j);
    assert forall k | 0 <= k < |result.tokens| :: TokenOk(source, result.tokens[k], i);
    assert forall k | 0 <= k < |result.errors| :: ErrorOk(source, result.errors[k], i);
  }

  lemma OneMoreIsOk(source: string, i: nat, result: LexResult)
    requires i < |source| && FoundOk(source, result, i)
    ensures FoundOk(source, With(result, source, i, LexemeAt(source, i)), LexemeAt(source, i).next)
  {
    hide Offset;
    hide LexemeAt;
    var lexeme := LexemeAt(source, i);
    StillOk(source, result, i, lexeme.next);
    OffsetGrows(source, i, lexeme.next);
    NoEndMarkerInside(source, i);
    assert IsBoundary(source, Offset(source, i)) && IsBoundary(source, Offset(source, lexeme.next));
    if lexeme.found.Bad? {
      OffsetGrows(source, i, lexeme.found.end);
      OffsetGrows(source, lexeme.found.end, lexeme.next);
      assert IsBoundary(source, Offset(source, lexeme.found.end));
    }
  }

  lemma {:induction false} ScannedIsOk(source: string, i: nat, result: LexResult)
    requires i <= |source| && FoundOk(source, result, i)
    ensures var r := Scanned(source, i, result);
            && |r.tokens| > 0
            && FoundOk(source, r.(tokens := r.tokens[..|r.tokens| - 1]), |source|)
            && r.tokens[|r.tokens| - 1] == Token(EOF, Span(ByteLen(source), ByteLen(source)))
    decreases |source| - i
  {
    hide LexemeAt;
    hide FoundOk;
    hide With;
    if i == |source| {
      assert source[..|source|] == source;
      assert (result.tokens + [Token(EOF, SpanOf(source, i, i))])[..|result.tokens|] == result.tokens;
    } else {
      OneMoreIsOk(source, i, result);
      ScannedIsOk(source, LexemeAt(source, i).next, With(result, source, i, LexemeAt(source, i)));
    }
  }

  /**
   * For every text: one end marker, at the end; all other tokens non-empty, one behind the other, within the text and on
   * character boundaries; errors within the text and on character boundaries.
   */
  lemma SpansAreValid(source: string)
    ensures var r := Scanned(source, 0, LexResult([], []));
            var last := |r.tokens| - 1;
            && last >= 0 && r.tokens[last] == Token(EOF, Span(ByteLen(source), ByteLen(source)))
            && (forall k | 0 <= k < last ::
                  && r.tokens[k].kind != EOF
                  && r.tokens[k].span.start < r.tokens[k].span.end <= r.tokens[k + 1].span.start
                  && IsBoundary(source, r.tokens[k].span.start) && IsBoundary(source, r.tokens[k].span.end))
            && (forall k | 0 <= k < |r.errors| ::
                  && r.errors[k].span.start < r.errors[k].span.end <= ByteLen(source)
                  && IsBoundary(source, r.errors[k].span.start) && IsBoundary(source, r.errors[k].span.end))
  {
    hide IsBoundary;
    hide Scanned;
    ScannedIsOk(source, 0, LexResult([], []));
    var r := Scanned(source, 0, LexResult([], []));
    var found := r.(tokens := r.tokens[..|r.tokens| - 1]);
    assert source[..|source|] == source;
    forall k | 0 <= k < |found.tokens|
      ensures TokenOk(source, r.tokens[k], |source|) && r.tokens[k].span.end <= r.tokens[k + 1].span.start
    {
      assert found.tokens[k] == r.tokens[k];
      if k + 1 < |found.tokens| {
        assert found.tokens[k + 1] == r.tokens[k + 1];
      }
    }
  }

  // ---- gaps ----

  /** A comment, up to the end of its line. */
  predicate IsComment(source: string, i: nat, end: nat) {
    && i < end <= |source|
    && (source[i] == '#' || (source[i] == '/' && i + 1 < end && source[i + 1] == '/'))
    && (forall k | i < k < end :: source[k] != '\n')
    && (end == |source| || source[end] == '\n')
  }

  predicate IsBlankAt(source: string, i: nat, end: nat) {
    end == i + 1 <= |source| && IsBlank(source[i])
  }

  /** Nothing but white space and comments. */
  ghost predicate Trivia(source: string, i: nat, j: nat)
    decreases j
  {
    i == j || exists e: nat | e < j :: i <= e && Trivia(source, i, e) && (IsBlankAt(source, e, j) || IsComment(source, e, j))
  }

  /** The same between two byte offsets. */
  ghost predicate TriviaBetween(source: string, from: nat, to: nat) {
    exists c: nat, d: nat | c <= d <= |source| ::
      Offset(source, c) == from && Offset(source, d) == to && Trivia(source, c, d)
  }

  /** Where the token in front of token `k` ends. */
  function EndBefore(tokens: seq<Token>, k: nat): nat
    requires k <= |tokens|
  {
    if k == 0 then 0 else tokens[k - 1].span.end
  }

  ghost predicate GapsOk(source: string, tokens: seq<Token>) {
    forall k | 0 <= k < |tokens| :: TriviaBetween(source, EndBefore(tokens, k), tokens[k].span.start)
  }

  /** Scanning has come to character `i` without an error, and behind the last token (at `c`) there was only trivia. */
  ghost predicate CleanUpTo(source: string, result: LexResult, c: nat, i: nat) {
    && result.errors == [] && c <= i <= |source|
    && EndBefore(result.tokens, |result.tokens|) == Offset(source, c)
    && Trivia(source, c, i) && GapsOk(source, result.tokens)
  }

  lemma {:induction false} LineEndIsEnd(source: string, i: nat)
    requires i <= |source|
    ensures var e := LineEnd(source, i);
            (forall k | i <= k < e :: source[k] != '\n') && (e == |source| || source[e] == '\n')
    decreases |source| - i
  {
    if i < |source| && source[i] != '\n' {
      LineEndIsEnd(source, i + 1);
    }
  }

  lemma BlankIsTrivia(source: string, c: nat, i: nat)
    requires i < |source| && c <= i && Trivia(source, c, i) && LexemeAt(source, i).found.Blank?
    ensures Trivia(source, c, LexemeAt(source, i).next)
  {
    hide Trivia;
    var next := LexemeAt(source, i).next;
    assert IsBlankAt(source, i, next) || IsComment(source, i, next) by {
      StringsAreNoTrivia(source, i + 1, "");
      if source[i] == '#' {
        LineEndIsEnd(source, i + 1);
      }
      if source[i] == '/' && i + 1 < |source| {
        LineEndIsEnd(source, i + 2);
      }
    }
    TriviaGrows(source, c, i, next);
  }

  lemma TriviaGrows(source: string, c: nat, i: nat, next: nat)
    requires c <= i < next && Trivia(source, c, i) && (IsBlankAt(source, i, next) || IsComment(source, i, next))
    ensures Trivia(source, c, next)
  {
  }

  lemma {:induction false} StringsAreNoTrivia(source: string, i: nat, value: string)
    requires i <= |source|
    ensures !StringFrom(source, i, value).found.Blank?
    decreases |source| - i
  {
    if i < |source| {
      if source[i] != '\\' {
        StringsAreNoTrivia(source, i + 1, value + [source[i]]);
      } else if i + 1 < |source| && Unescape(source[i + 1]).Some? {
        StringsAreNoTrivia(source, i + 2, value + [Unescape(source[i + 1]).value]);
      }
    }
  }

  /** Errors stay. */
  lemma {:induction false} ErrorsStay(source: string, i: nat, result: LexResult)
    requires i <= |source|
    ensures |result.errors| <= |Scanned(source, i, result).errors|
    decreases |source| - i
  {
    hide LexemeAt;
    if i < |source| {
      ErrorsStay(source, LexemeAt(source, i).next, With(result, source, i, LexemeAt(source, i)));
    }
  }

  lemma GapsWithOneMore(source: string, tokens: seq<Token>, token: Token)
    requires GapsOk(source, tokens) && TriviaBetween(source, EndBefore(tokens, |tokens|), token.span.start)
    ensures GapsOk(source, tokens + [token])
  {
    hide TriviaBetween;
    var all := tokens + [token];
    forall k | 0 <= k < |all| ensures TriviaBetween(source, EndBefore(all, k), all[k].span.start) {
      assert EndBefore(all, k) == EndBefore(tokens, k);
    }
  }

  lemma {:induction false} ScannedGaps(source: string, i: nat, result: LexResult, c: nat)
    requires i <= |source| && CleanUpTo(source, result, c, i)
    ensures Scanned(source, i, result).errors == [] ==> GapsOk(source, Scanned(source, i, result).tokens)
    decreases |source| - i
  {
    hide Offset;
    hide Trivia;
    hide LexemeAt;
    hide GapsOk;
    assert TriviaBetween(source, Offset(source, c), Offset(source, i));
    if i == |source| {
      GapsWithOneMore(source, result.tokens, Token(EOF, SpanOf(source, i, i)));
    } else {
      var lexeme := LexemeAt(source, i);
      var next := With(result, source, i, lexeme);
      match lexeme.found
      case Blank =>
        BlankIsTrivia(source, c, i);
        ScannedGaps(source, lexeme.next, next, c);
      case Good(kind) =>
        GapsWithOneMore(source, result.tokens, Token(kind, SpanOf(source, i, lexeme.next)));
        NoTrivia(source, lexeme.next);
        ScannedGaps(source, lexeme.next, next, lexeme.next);
      case Bad(_, _) => ErrorsStay(source, lexeme.next, next);
    }
  }

  lemma NoTrivia(source: string, i: nat)
    ensures Trivia(source, i, i)
  {
  }

  /** Without errors, everything between two tokens is white space and comments. */
  lemma GapsAreTrivia(source: string)
    ensures var r := Scanned(source, 0, LexResult([], []));
            r.errors == [] ==> GapsOk(source, r.tokens)
  {
    NoTrivia(source, 0);
    ScannedGaps(source, 0, LexResult([], []), 0);
  }
}
