/**
 * Recovery inside a test: with noise between the entries of an object, the items of an array, the fields of an
 * assertion, the sections of a request or an expectation, or the parts of a test, every sound sibling survives, and each
 * run of noise is one error.
 */
module ListNoise {
  import opened Wrappers
  import opened IndexMap
  import opened JsonValues
  import opened Domain
  import opened Ast
  import opened Tokens
  import opened Grammar
  import opened Canonical
  import opened Recovery
  import opened PrintParse
  import NoiseRecovery
  import Parsing

  /** A part of a list as it is written: a run of noise, or an item. */
  datatype Piece<T> = Junk(tokens: seq<TokenKind>) | Item(node: T, tokens: seq<TokenKind>)

  function Written<T>(pieces: seq<Piece<T>>): seq<TokenKind> {
    if pieces == [] then [] else pieces[0].tokens + Written(pieces[1..])
  }

  /** What should come out of it. */
  function Items<T>(pieces: seq<Piece<T>>): seq<T> {
    if pieces == [] then []
    else (if pieces[0].Item? then [pieces[0].node] else []) + Items(pieces[1..])
  }

  function JunkErrors<T>(pieces: seq<Piece<T>>): Errors {
    if pieces == [] then []
    else
      (if pieces[0].Junk? && pieces[0].tokens != [] then [UnexpectedToken(pieces[0].tokens[0])] else [])
      + JunkErrors(pieces[1..])
  }

  // ---- any list ----

  /** The loop makes of the tokens at `i` what the piece says. */
  ghost predicate Placed<T>(tokens: seq<TokenKind>, i: nat, loop: Loop<T>, piece: Piece<T>) {
    var kind, next := Peek(tokens, i), i + |piece.tokens|;
    && piece.tokens != [] && kind == piece.tokens[0] && kind != EOF && kind != loop.close && !loop.leaves(kind)
    && match piece
       case Junk(_) => !loop.starts(kind) && loop.resume(i) == next
       case Item(node, _) => loop.starts(kind) && loop.item(i) == Some(Parsed(node, next))
  }

  ghost predicate AllPlaced<T>(tokens: seq<TokenKind>, i: nat, loop: Loop<T>, pieces: seq<Piece<T>>)
    decreases |pieces|
  {
    pieces == []
    || (Placed(tokens, i, loop, pieces[0]) && AllPlaced(tokens, i + |pieces[0].tokens|, loop, pieces[1..]))
  }

  lemma PieceStep<T>(tokens: seq<TokenKind>, i: nat, loop: Loop<T>, piece: Piece<T>, done: seq<T>, errors: Errors)
    requires Placed(tokens, i, loop, piece)
    ensures RecoveredLoop(tokens, i, loop, done, errors)
         == RecoveredLoop(tokens, i + |piece.tokens|, loop, if piece.Item? then done + [piece.node] else done,
                          if piece.Junk? then errors + [UnexpectedToken(piece.tokens[0])] else errors)
  {
    hide Peek;
  }

  lemma PiecesEnd<T>(tokens: seq<TokenKind>, i: nat, loop: Loop<T>, done: seq<T>, errors: Errors)
    requires loop.close != EOF && Peek(tokens, i) == loop.close
    ensures RecoveredLoop(tokens, i, loop, done, errors) == Some(Recovered(done, i + 1, errors))
  {
  }

  lemma PiecesCons<T>(
    tokens: seq<TokenKind>, i: nat, loop: Loop<T>, pieces: seq<Piece<T>>, done: seq<T>, errors: Errors)
    requires AllPlaced(tokens, i, loop, pieces)
    ensures pieces == [] ==>
              Written(pieces) == [] && done + Items(pieces) == done && errors + JunkErrors(pieces) == errors
    ensures pieces != [] ==>
              var first, rest := pieces[0], pieces[1..];
              && Placed(tokens, i, loop, first) && AllPlaced(tokens, i + |first.tokens|, loop, rest)
              && |Written(pieces)| == |first.tokens| + |Written(rest)| && first.tokens != []
              && done + Items(pieces) == (if first.Item? then done + [first.node] else done) + Items(rest)
              && errors + JunkErrors(pieces)
                 == (if first.Junk? then errors + [UnexpectedToken(first.tokens[0])] else errors) + JunkErrors(rest)
  {
    hide Placed;
    if pieces == [] {
      assert done + [] == done && errors + [] == errors;
    } else {
      var first, rest := pieces[0], pieces[1..];
      FirstPlaced(tokens, i, loop, first);
      match first {
        case Item(node, _) =>
          NoiseRecovery.MoveOver(done, node, Items(rest));
          NoiseRecovery.MoveNothing(errors, JunkErrors(rest));
        case Junk(junk) =>
          NoiseRecovery.MoveNothing(done, Items(rest));
          NoiseRecovery.MoveOver(errors, UnexpectedToken(junk[0]), JunkErrors(rest));
      }
    }
  }

  lemma FirstPlaced<T>(tokens: seq<TokenKind>, i: nat, loop: Loop<T>, piece: Piece<T>)
    requires Placed(tokens, i, loop, piece)
    ensures piece.tokens != []
  {
  }

  /** Pieces in their places are all recovered, in order, each run of noise at the cost of one error. */
  lemma {:induction false} PlacedPiecesSurvive<T>(
    tokens: seq<TokenKind>, i: nat, loop: Loop<T>, pieces: seq<Piece<T>>, done: seq<T>, errors: Errors)
    requires AllPlaced(tokens, i, loop, pieces)
    requires loop.close != EOF && Peek(tokens, i + |Written(pieces)|) == loop.close
    ensures RecoveredLoop(tokens, i, loop, done, errors)
         == Some(Recovered(done + Items(pieces), i + |Written(pieces)| + 1, errors + JunkErrors(pieces)))
    decreases |pieces|
  {
    hide *;
    PiecesCons(tokens, i, loop, pieces, done, errors);
    if pieces == [] {
      PiecesEnd(tokens, i, loop, done, errors);
    } else {
      var first := pieces[0];
      PieceStep(tokens, i, loop, first, done, errors);
      PlacedPiecesSurvive(tokens, i + |first.tokens|, loop, pieces[1..],
                          if first.Item? then done + [first.node] else done,
                          if first.Junk? then errors + [UnexpectedToken(first.tokens[0])] else errors);
    }
  }

  // ---- lists separated by commas ----

  /** Some tokens that neither start an item nor stop recovery, and the comma that ends them. */
  predicate IsJunk(junk: seq<TokenKind>, starts: TokenKind -> bool, stops: TokenKind -> bool) {
    && |junk| > 1 && junk[|junk| - 1] == COMMA && !starts(junk[0])
    && NoiseRecovery.IsNoise(junk[..|junk| - 1], stops)
  }

  lemma JunkResumes(
    tokens: seq<TokenKind>, i: nat, junk: seq<TokenKind>, starts: TokenKind -> bool, stops: TokenKind -> bool)
    requires At(tokens, i, junk) && IsJunk(junk, starts, stops) && stops(COMMA)
    ensures i < |tokens| && Peek(tokens, i) == junk[0] && junk[0] != EOF && !stops(junk[0]) && !starts(junk[0])
    ensures ResumeAt(tokens, i, stops) == i + |junk|
  {
    hide Peek;
    hide FirstStop;
    hide RecoveryBoundary;
    var body := junk[..|junk| - 1];
    assert junk == body + [COMMA];
    AtAppend(tokens, i, body, [COMMA]);
    AtPeek(tokens, i + |body|, [COMMA], 0);
    NoiseRecovery.StopsBehindNoise(tokens, i, body, stops);
    NoiseRecovery.NoiseIsSkipped(tokens, i, body, stops);
  }

  ghost predicate EntryPieceOk(piece: Piece<(string, ValueAst)>, room: nat) {
    match piece
    case Junk(tokens) => IsJunk(tokens, StartsKey, EntryStop)
    case Item(entry, tokens) => tokens == OneEntryTokens(entry, true) + [COMMA] && ValueFits(entry.1, room)
  }

  ghost predicate ItemPieceOk(piece: Piece<ValueAst>, room: nat) {
    match piece
    case Junk(tokens) => IsJunk(tokens, StartsValue, ItemStop)
    case Item(value, tokens) => tokens == ValueTokens(value, true) + [COMMA] && ValueFits(value, room)
  }

  ghost predicate FieldPieceOk(piece: Piece<FieldAssertionAst>, room: nat) {
    match piece
    case Junk(tokens) => IsJunk(tokens, StartsKey, AssertionStop) && !ContainerBoundary(tokens[0])
    case Item(field, tokens) => tokens == FieldTokens(field, true) + [COMMA] && FieldFits(field, room)
  }

  lemma {:induction false} EntryPlaced(
    tokens: seq<TokenKind>, i: nat, pieces: seq<Piece<(string, ValueAst)>>, room: nat)
    requires At(tokens, i, Written(pieces)) && forall k | 0 <= k < |pieces| :: EntryPieceOk(pieces[k], room)
    ensures AllPlaced(tokens, i, EntryLoop(tokens, room), pieces)
    decreases |pieces|
  {
    hide Placed;
    hide EntryLoop;
    hide At;
    hide EntryPieceOk;
    if pieces != [] {
      AtAppend(tokens, i, pieces[0].tokens, Written(pieces[1..]));
      OneEntryPlaced(tokens, i, pieces[0], room);
      EntryPlaced(tokens, i + |pieces[0].tokens|, pieces[1..], room);
    }
  }

  lemma OneEntryPlaced(tokens: seq<TokenKind>, i: nat, piece: Piece<(string, ValueAst)>, room: nat)
    requires At(tokens, i, piece.tokens) && EntryPieceOk(piece, room)
    ensures Placed(tokens, i, EntryLoop(tokens, room), piece)
  {
    hide Peek;
    hide At;
    hide EntryAt;
    hide ValueFits;
    hide OneEntryTokens;
    hide ResumeAt;
    hide KeyText;
    hide ContainerBoundary;
    if piece.Junk? {
      JunkResumes(tokens, i, piece.tokens, StartsKey, EntryStop);
    } else {
      KeysAreNoBoundary(piece.node.0);
      SoundEntry(tokens, i, piece.node, room);
    }
  }

  lemma KeysAreNoBoundary(text: string)
    ensures !ContainerBoundary(StringLiteral(text))
  {
  }

  lemma SoundEntry(tokens: seq<TokenKind>, i: nat, entry: (string, ValueAst), room: nat)
    requires At(tokens, i, OneEntryTokens(entry, true) + [COMMA]) && ValueFits(entry.1, room)
    ensures OneEntryTokens(entry, true) != [] && Peek(tokens, i) == OneEntryTokens(entry, true)[0]
    ensures Peek(tokens, i) == StringLiteral(entry.0) && StartsKey(Peek(tokens, i))
    ensures EntryAt(tokens, i, room) == Some(Parsed(entry, i + |OneEntryTokens(entry, true) + [COMMA]|))
  {
    hide Peek;
    hide At;
    hide EntryAt;
    hide RequestHeaderAt;
    hide ValueFits;
    hide OneEntryTokens;
    hide KeyText;
    var inner := OneEntryTokens(entry, true);
    EntryStarts(entry);
    AtAppend(tokens, i, inner, [COMMA]);
    AtPeek(tokens, i, inner, 0);
    AtPeek(tokens, i + |inner|, [COMMA], 0);
    OneEntryParses(tokens, i, entry, room, true);
    StringIsKey(entry.0);
  }

  lemma EntryStarts(entry: (string, ValueAst))
    ensures |OneEntryTokens(entry, true)| > 0 && OneEntryTokens(entry, true)[0] == StringLiteral(entry.0)
  {
  }

  lemma {:induction false} ItemPlaced(tokens: seq<TokenKind>, i: nat, pieces: seq<Piece<ValueAst>>, room: nat)
    requires At(tokens, i, Written(pieces)) && forall k | 0 <= k < |pieces| :: ItemPieceOk(pieces[k], room)
    ensures AllPlaced(tokens, i, ItemLoop(tokens, room), pieces)
    decreases |pieces|
  {
    hide Placed;
    hide ItemLoop;
    hide At;
    hide ItemPieceOk;
    if pieces != [] {
      AtAppend(tokens, i, pieces[0].tokens, Written(pieces[1..]));
      OneItemPlaced(tokens, i, pieces[0], room);
      ItemPlaced(tokens, i + |pieces[0].tokens|, pieces[1..], room);
    }
  }

  lemma OneItemPlaced(tokens: seq<TokenKind>, i: nat, piece: Piece<ValueAst>, room: nat)
    requires At(tokens, i, piece.tokens) && ItemPieceOk(piece, room)
    ensures Placed(tokens, i, ItemLoop(tokens, room), piece)
  {
    hide Peek;
    hide At;
    hide ItemAt;
    hide ValueFits;
    hide ValueTokens;
    hide ResumeAt;
    match piece
    case Junk(junk) =>
      JunkResumes(tokens, i, junk, StartsValue, ItemStop);
    case Item(value, written) =>
      var inner := ValueTokens(value, true);
      AtAppend(tokens, i, inner, [COMMA]);
      AtPeek(tokens, i, inner, 0);
      AtPeek(tokens, i + |inner|, [COMMA], 0);
      ItemStarts(value);
      OneItemParses(tokens, i, value, [COMMA], room, true);
  }

  lemma ItemStarts(value: ValueAst)
    ensures StartsValue(ValueTokens(value, true)[0])
  {
  }

  lemma {:induction false} FieldPlaced(tokens: seq<TokenKind>, i: nat, pieces: seq<Piece<FieldAssertionAst>>, room: nat)
    requires At(tokens, i, Written(pieces)) && forall k | 0 <= k < |pieces| :: FieldPieceOk(pieces[k], room)
    ensures AllPlaced(tokens, i, FieldLoop(tokens, room), pieces)
    decreases |pieces|
  {
    hide Placed;
    hide FieldLoop;
    hide At;
    hide FieldPieceOk;
    if pieces != [] {
      AtAppend(tokens, i, pieces[0].tokens, Written(pieces[1..]));
      OneFieldPlaced(tokens, i, pieces[0], room);
      FieldPlaced(tokens, i + |pieces[0].tokens|, pieces[1..], room);
    }
  }

  lemma OneFieldPlaced(tokens: seq<TokenKind>, i: nat, piece: Piece<FieldAssertionAst>, room: nat)
    requires At(tokens, i, piece.tokens) && FieldPieceOk(piece, room)
    ensures Placed(tokens, i, FieldLoop(tokens, room), piece)
  {
    hide Peek;
    hide At;
    hide FieldAt;
    hide KeyText;
    hide FieldFits;
    hide FieldTokens;
    hide ResumeAt;
    match piece
    case Junk(junk) =>
      JunkResumes(tokens, i, junk, StartsKey, AssertionStop);
    case Item(field, written) =>
      var inner := FieldTokens(field, true);
      FieldStarts(field);
      AtAppend(tokens, i, inner, [COMMA]);
      AtPeek(tokens, i, inner, 0);
      AtPeek(tokens, i + |inner|, [COMMA], 0);
      FieldParses(tokens, i, field, room, true);
      StringIsKey(field.name);
  }

  lemma FieldStarts(field: FieldAssertionAst)
    ensures |FieldTokens(field, true)| > 0 && FieldTokens(field, true)[0] == StringLiteral(field.name)
  {
  }

  // ---- main results for separated lists ----

  /** Noise in an object value. */
  lemma EntriesSurvive(tokens: seq<TokenKind>, i: nat, pieces: seq<Piece<(string, ValueAst)>>, room: nat)
    requires forall k | 0 <= k < |pieces| :: EntryPieceOk(pieces[k], room)
    requires At(tokens, i, Written(pieces)) && Peek(tokens, i + |Written(pieces)|) == RIGHT_BRACE
    ensures RecoveredLoop(tokens, i, EntryLoop(tokens, room), [], [])
         == Some(Recovered(Items(pieces), i + |Written(pieces)| + 1, JunkErrors(pieces)))
  {
    hide AllPlaced;
    hide RecoveredLoop;
    hide EntryPieceOk;
    EntryPlaced(tokens, i, pieces, room);
    PlacedPiecesSurvive(tokens, i, EntryLoop(tokens, room), pieces, [], []);
    NothingBefore(Items(pieces));
    NothingBefore(JunkErrors(pieces));
  }

  /** Noise in an array. */
  lemma ItemsSurvive(tokens: seq<TokenKind>, i: nat, pieces: seq<Piece<ValueAst>>, room: nat)
    requires forall k | 0 <= k < |pieces| :: ItemPieceOk(pieces[k], room)
    requires At(tokens, i, Written(pieces)) && Peek(tokens, i + |Written(pieces)|) == RIGHT_BRACKET
    ensures RecoveredLoop(tokens, i, ItemLoop(tokens, room), [], [])
         == Some(Recovered(Items(pieces), i + |Written(pieces)| + 1, JunkErrors(pieces)))
  {
    hide AllPlaced;
    hide RecoveredLoop;
    hide ItemPieceOk;
    ItemPlaced(tokens, i, pieces, room);
    PlacedPiecesSurvive(tokens, i, ItemLoop(tokens, room), pieces, [], []);
    NothingBefore(Items(pieces));
    NothingBefore(JunkErrors(pieces));
  }

  /** Noise in an object assertion. */
  lemma FieldsSurvive(tokens: seq<TokenKind>, i: nat, pieces: seq<Piece<FieldAssertionAst>>, room: nat)
    requires forall k | 0 <= k < |pieces| :: FieldPieceOk(pieces[k], room)
    requires At(tokens, i, Written(pieces)) && Peek(tokens, i + |Written(pieces)|) == RIGHT_BRACE
    ensures RecoveredLoop(tokens, i, FieldLoop(tokens, room), [], [])
         == Some(Recovered(Items(pieces), i + |Written(pieces)| + 1, JunkErrors(pieces)))
  {
    hide AllPlaced;
    hide RecoveredLoop;
    hide FieldPieceOk;
    FieldPlaced(tokens, i, pieces, room);
    PlacedPiecesSurvive(tokens, i, FieldLoop(tokens, room), pieces, [], []);
    NothingBefore(Items(pieces));
    NothingBefore(JunkErrors(pieces));
  }

  // ---- lists of sections ----

  /** Two runs of noise next to each other would be one. */
  ghost predicate ApartFromEachOther<T>(pieces: seq<Piece<T>>) {
    forall j, k | 0 <= j < k < |pieces| && k == j + 1 :: !(pieces[j].Junk? && pieces[k].Junk?)
  }

  lemma ApartCons<T>(pieces: seq<Piece<T>>)
    requires ApartFromEachOther(pieces) && pieces != []
    ensures ApartFromEachOther(pieces[1..])
    ensures pieces[0].Junk? ==> pieces[1..] == [] || pieces[1..][0].Item?
  {
  }

  lemma BraceStops()
    ensures RequestSectionStop(RIGHT_BRACE) && ExpectationSectionStop(RIGHT_BRACE) && TestItemStop(RIGHT_BRACE)
  {
  }

  lemma JunkIsSkipped(tokens: seq<TokenKind>, i: nat, junk: seq<TokenKind>, stops: TokenKind -> bool)
    requires At(tokens, i, junk) && NoiseRecovery.IsNoise(junk, stops) && stops(Peek(tokens, i + |junk|))
    ensures i < |tokens| && Peek(tokens, i) == junk[0] && junk[0] != EOF && !stops(junk[0])
    ensures SkipAt(tokens, i, stops) == i + |junk|
  {
    hide Peek;
    hide FirstStop;
    NoiseRecovery.NoiseIsSkipped(tokens, i, junk, stops);
  }

  ghost predicate RequestSectionPieceOk(piece: Piece<RequestSection>, room: nat, commas: bool) {
    match piece
    case Junk(tokens) => NoiseRecovery.IsNoise(tokens, RequestSectionStop) && tokens[0] != COMMA
    case Item(section, tokens) => tokens == SectionTokens(section, commas) && SectionFits(section, room)
  }

  ghost predicate RequestSectionPiecesOk(pieces: seq<Piece<RequestSection>>, room: nat, commas: bool) {
    (forall k | 0 <= k < |pieces| :: RequestSectionPieceOk(pieces[k], room, commas)) && ApartFromEachOther(pieces)
  }

  lemma {:induction false} RequestSectionPlaced(
    tokens: seq<TokenKind>, i: nat, pieces: seq<Piece<RequestSection>>, room: nat, commas: bool)
    requires At(tokens, i, Written(pieces)) && Peek(tokens, i + |Written(pieces)|) == RIGHT_BRACE
    requires RequestSectionPiecesOk(pieces, room, commas)
    ensures AllPlaced(tokens, i, RequestSectionLoop(tokens, room), pieces)
    ensures Peek(tokens, i) != COMMA && (pieces == [] || pieces[0].Item? ==> RequestSectionStop(Peek(tokens, i)))
    decreases |pieces|
  {
    hide Placed;
    hide Peek;
    hide RequestSectionLoop;
    hide At;
    hide RequestSectionPieceOk;
    hide RequestSectionStop;
    if pieces == [] {
      BraceStops();
    } else {
      var next := i + |pieces[0].tokens|;
      AtAppend(tokens, i, pieces[0].tokens, Written(pieces[1..]));
      ApartCons(pieces);
      RequestSectionPlaced(tokens, next, pieces[1..], room, commas);
      OneRequestSectionPlaced(tokens, i, pieces[0], room, commas);
    }
  }

  lemma OneRequestSectionPlaced(
    tokens: seq<TokenKind>, i: nat, piece: Piece<RequestSection>, room: nat, commas: bool)
    requires At(tokens, i, piece.tokens) && RequestSectionPieceOk(piece, room, commas)
    requires piece.Junk? ==> RequestSectionStop(Peek(tokens, i + |piece.tokens|))
    ensures Placed(tokens, i, RequestSectionLoop(tokens, room), piece)
    ensures Peek(tokens, i) != COMMA && (piece.Item? ==> RequestSectionStop(Peek(tokens, i)))
  {
    hide Peek;
    hide At;
    hide RequestSectionAt;
    hide SectionFits;
    hide SectionTokens;
    hide SkipAt;
    match piece
    case Junk(junk) => JunkIsSkipped(tokens, i, junk, RequestSectionStop);
    case Item(section, written) =>
      RequestSectionStarts(section, commas);
      AtPeek(tokens, i, written, 0);
      SectionParses(tokens, i, section, room, commas);
  }

  lemma RequestSectionStarts(section: RequestSection, commas: bool)
    ensures SectionTokens(section, commas) != [] && StartsRequestSection(SectionTokens(section, commas)[0])
  {
  }

  ghost predicate ExpectationSectionPieceOk(piece: Piece<ExpectationSection>, room: nat, commas: bool) {
    match piece
    case Junk(tokens) => NoiseRecovery.IsNoise(tokens, ExpectationSectionStop) && tokens[0] != COMMA
    case Item(section, tokens) =>
      tokens == ExpectationSectionTokens(section, commas) && ExpectationSectionFits(section, room)
  }

  ghost predicate ExpectationSectionPiecesOk(pieces: seq<Piece<ExpectationSection>>, room: nat, commas: bool) {
    (forall k | 0 <= k < |pieces| :: ExpectationSectionPieceOk(pieces[k], room, commas)) && ApartFromEachOther(pieces)
  }

  lemma {:induction false} ExpectationSectionPlaced(
    tokens: seq<TokenKind>, i: nat, pieces: seq<Piece<ExpectationSection>>, room: nat, commas: bool)
    requires At(tokens, i, Written(pieces)) && Peek(tokens, i + |Written(pieces)|) == RIGHT_BRACE
    requires ExpectationSectionPiecesOk(pieces, room, commas)
    ensures AllPlaced(tokens, i, ExpectationSectionLoop(tokens, room), pieces)
    ensures Peek(tokens, i) != COMMA && (pieces == [] || pieces[0].Item? ==> ExpectationSectionStop(Peek(tokens, i)))
    decreases |pieces|
  {
    hide Placed;
    hide Peek;
    hide ExpectationSectionLoop;
    hide At;
    hide ExpectationSectionPieceOk;
    hide ExpectationSectionStop;
    if pieces == [] {
      BraceStops();
    } else {
      var next := i + |pieces[0].tokens|;
      AtAppend(tokens, i, pieces[0].tokens, Written(pieces[1..]));
      ApartCons(pieces);
      ExpectationSectionPlaced(tokens, next, pieces[1..], room, commas);
      OneExpectationSectionPlaced(tokens, i, pieces[0], room, commas);
    }
  }

  lemma OneExpectationSectionPlaced(
    tokens: seq<TokenKind>, i: nat, piece: Piece<ExpectationSection>, room: nat, commas: bool)
    requires At(tokens, i, piece.tokens) && ExpectationSectionPieceOk(piece, room, commas)
    requires piece.Junk? ==> ExpectationSectionStop(Peek(tokens, i + |piece.tokens|))
    requires Peek(tokens, i + |piece.tokens|) != COMMA
    ensures Placed(tokens, i, ExpectationSectionLoop(tokens, room), piece)
    ensures Peek(tokens, i) != COMMA && (piece.Item? ==> ExpectationSectionStop(Peek(tokens, i)))
  {
    hide Peek;
    hide At;
    hide ExpectationSectionAt;
    hide ExpectationSectionFits;
    hide ExpectationSectionTokens;
    hide SkipAt;
    match piece
    case Junk(junk) => JunkIsSkipped(tokens, i, junk, ExpectationSectionStop);
    case Item(section, written) =>
      ExpectationSectionStarts(section, commas);
      AtPeek(tokens, i, written, 0);
      ExpectationSectionParses(tokens, i, section, room, commas);
  }

  lemma ExpectationSectionStarts(section: ExpectationSection, commas: bool)
    ensures ExpectationSectionTokens(section, commas) != []
    ensures SectionStart(ExpectationSectionTokens(section, commas)[0])
  {
  }

  // ---- main results for sections ----

  /** Noise in the options of a request. */
  lemma RequestSectionsSurvive(
    tokens: seq<TokenKind>, i: nat, pieces: seq<Piece<RequestSection>>, room: nat, commas: bool)
    requires RequestSectionPiecesOk(pieces, room, commas)
    requires At(tokens, i, Written(pieces)) && Peek(tokens, i + |Written(pieces)|) == RIGHT_BRACE
    ensures RecoveredLoop(tokens, i, RequestSectionLoop(tokens, room), [], [])
         == Some(Recovered(Items(pieces), i + |Written(pieces)| + 1, JunkErrors(pieces)))
  {
    hide AllPlaced;
    hide RecoveredLoop;
    hide RequestSectionPiecesOk;
    RequestSectionPlaced(tokens, i, pieces, room, commas);
    PlacedPiecesSurvive(tokens, i, RequestSectionLoop(tokens, room), pieces, [], []);
    NothingBefore(Items(pieces));
    NothingBefore(JunkErrors(pieces));
  }

  /** Noise in an expectation. */
  lemma ExpectationSectionsSurvive(
    tokens: seq<TokenKind>, i: nat, pieces: seq<Piece<ExpectationSection>>, room: nat, commas: bool)
    requires ExpectationSectionPiecesOk(pieces, room, commas)
    requires At(tokens, i, Written(pieces)) && Peek(tokens, i + |Written(pieces)|) == RIGHT_BRACE
    ensures RecoveredLoop(tokens, i, ExpectationSectionLoop(tokens, room), [], [])
         == Some(Recovered(Items(pieces), i + |Written(pieces)| + 1, JunkErrors(pieces)))
  {
    hide AllPlaced;
    hide RecoveredLoop;
    hide ExpectationSectionPiecesOk;
    ExpectationSectionPlaced(tokens, i, pieces, room, commas);
    PlacedPiecesSurvive(tokens, i, ExpectationSectionLoop(tokens, room), pieces, [], []);
    NothingBefore(Items(pieces));
    NothingBefore(JunkErrors(pieces));
  }

  // ---- tests ----

  /** A part of a test as it is written. */
  datatype TestPart =
    | StrayPart(tokens: seq<TokenKind>)
    | RequestPart(request: RequestAst)
    | ExpectationPart(expectation: ExpectationAst)

  function PartTokens(part: TestPart, commas: bool): seq<TokenKind> {
    match part
    case StrayPart(tokens) => tokens
    case RequestPart(request) => RequestTokens(request, commas)
    case ExpectationPart(expectation) => ExpectationTokens(expectation, commas)
  }

  function PartsTokens(parts: seq<TestPart>, commas: bool): seq<TokenKind> {
    if parts == [] then [] else PartTokens(parts[0], commas) + PartsTokens(parts[1..], commas)
  }

  function RequestsOf(parts: seq<TestPart>): seq<RequestAst> {
    if parts == [] then []
    else (if parts[0].RequestPart? then [parts[0].request] else []) + RequestsOf(parts[1..])
  }

  function ExpectationsOf(parts: seq<TestPart>): seq<ExpectationAst> {
    if parts == [] then []
    else (if parts[0].ExpectationPart? then [parts[0].expectation] else []) + ExpectationsOf(parts[1..])
  }

  function StrayErrors(parts: seq<TestPart>): Errors {
    if parts == [] then []
    else
      (if parts[0].StrayPart? && parts[0].tokens != [] then [UnexpectedToken(parts[0].tokens[0])] else [])
      + StrayErrors(parts[1..])
  }

  ghost predicate PartOk(part: TestPart, room: nat) {
    match part
    case StrayPart(tokens) => NoiseRecovery.IsNoise(tokens, TestItemStop)
    case RequestPart(request) => RequestFits(request, room)
    case ExpectationPart(expectation) => ExpectationFits(expectation, room)
  }

  /** Requests stand in front of expectations, and runs of noise apart from each other. */
  ghost predicate PartsOk(parts: seq<TestPart>, room: nat) {
    && (forall k | 0 <= k < |parts| :: PartOk(parts[k], room))
    && (forall j, k | 0 <= j < k < |parts| :: !(parts[j].ExpectationPart? && parts[k].RequestPart?))
    && (forall j, k | 0 <= j < k < |parts| && k == j + 1 :: !(parts[j].StrayPart? && parts[k].StrayPart?))
  }

  lemma PartsCons(
    parts: seq<TestPart>, room: nat, commas: bool, requests: seq<RequestAst>, expectations: seq<ExpectationAst>,
    errors: Errors)
    requires PartsOk(parts, room)
    ensures parts == [] ==>
              && PartsTokens(parts, commas) == [] && requests + RequestsOf(parts) == requests
              && expectations + ExpectationsOf(parts) == expectations && errors + StrayErrors(parts) == errors
    ensures parts != [] ==>
              var first, rest := parts[0], parts[1..];
              && PartOk(first, room) && PartsOk(rest, room)
              && PartsTokens(parts, commas) == PartTokens(first, commas) + PartsTokens(rest, commas)
              && (first.StrayPart? ==> rest == [] || !rest[0].StrayPart?)
              && (first.ExpectationPart? ==> RequestsOf(rest) == [])
  {
    hide PartOk;
    if parts == [] {
      assert requests + [] == requests && expectations + [] == expectations && errors + [] == errors;
    } else {
      var rest := parts[1..];
      assert forall k | 0 <= k < |rest| :: rest[k] == parts[k + 1];
      if parts[0].ExpectationPart? {
        NoRequests(rest);
      }
    }
  }

  lemma {:induction false} NoRequests(parts: seq<TestPart>)
    requires forall k | 0 <= k < |parts| :: !parts[k].RequestPart?
    ensures RequestsOf(parts) == []
  {
    if parts != [] {
      NoRequests(parts[1..]);
    }
  }

  lemma PartsMove(
    parts: seq<TestPart>, requests: seq<RequestAst>, expectations: seq<ExpectationAst>, errors: Errors, room: nat)
    requires parts != [] && PartOk(parts[0], room)
    ensures var first, rest := parts[0], parts[1..];
            && requests + RequestsOf(parts)
               == (if first.RequestPart? then requests + [first.request] else requests) + RequestsOf(rest)
            && expectations + ExpectationsOf(parts)
               == (if first.ExpectationPart? then expectations + [first.expectation] else expectations)
                  + ExpectationsOf(rest)
            && (first.StrayPart? ==>
                  first.tokens != []
                  && errors + StrayErrors(parts) == errors + [UnexpectedToken(first.tokens[0])] + StrayErrors(rest))
            && (!first.StrayPart? ==> errors + StrayErrors(parts) == errors + StrayErrors(rest))
  {
    hide RequestFits;
    hide ExpectationFits;
    var first, rest := parts[0], parts[1..];
    match first
    case StrayPart(junk) =>
      NoiseRecovery.MoveNothing(requests, RequestsOf(rest));
      NoiseRecovery.MoveNothing(expectations, ExpectationsOf(rest));
      NoiseRecovery.MoveOver(errors, UnexpectedToken(junk[0]), StrayErrors(rest));
    case RequestPart(request) =>
      NoiseRecovery.MoveOver(requests, request, RequestsOf(rest));
      NoiseRecovery.MoveNothing(expectations, ExpectationsOf(rest));
      NoiseRecovery.MoveNothing(errors, StrayErrors(rest));
    case ExpectationPart(expectation) =>
      NoiseRecovery.MoveNothing(requests, RequestsOf(rest));
      NoiseRecovery.MoveOver(expectations, expectation, ExpectationsOf(rest));
      NoiseRecovery.MoveNothing(errors, StrayErrors(rest));
  }

  /** What stands at the start of some parts. */
  lemma PartsStart(tokens: seq<TokenKind>, i: nat, parts: seq<TestPart>, room: nat, commas: bool)
    requires At(tokens, i, PartsTokens(parts, commas)) && Peek(tokens, i + |PartsTokens(parts, commas)|) == RIGHT_BRACE
    requires PartsOk(parts, room)
    ensures parts == [] ==> Peek(tokens, i) == RIGHT_BRACE
    ensures parts != [] && parts[0].RequestPart? ==> Peek(tokens, i) == REQUEST
    ensures parts != [] && parts[0].ExpectationPart? ==> Peek(tokens, i) == EXPECT
    ensures parts == [] || !parts[0].StrayPart? ==> TestItemStop(Peek(tokens, i))
  {
    hide Peek;
    hide At;
    hide RequestFits;
    hide ExpectationFits;
    if parts != [] && !parts[0].StrayPart? {
      PartsCons(parts, room, commas, [], [], []);
      AtAppend(tokens, i, PartTokens(parts[0], commas), PartsTokens(parts[1..], commas));
      PartTokensStart(parts[0], commas);
      AtPeek(tokens, i, PartTokens(parts[0], commas), 0);
    }
  }

  lemma PartTokensStart(part: TestPart, commas: bool)
    requires !part.StrayPart?
    ensures PartTokens(part, commas) != []
    ensures PartTokens(part, commas)[0] == if part.RequestPart? then REQUEST else EXPECT
  {
  }

  /** Noise in a test: every request and every expectation survives, at one error for each run. */
  lemma {:induction false} PartsSurvive(
    tokens: seq<TokenKind>, i: nat, parts: seq<TestPart>, room: nat, commas: bool, requests: seq<RequestAst>,
    expectations: seq<ExpectationAst>, errors: Errors)
    requires At(tokens, i, PartsTokens(parts, commas)) && Peek(tokens, i + |PartsTokens(parts, commas)|) == RIGHT_BRACE
    requires PartsOk(parts, room) && (expectations != [] ==> RequestsOf(parts) == [])
    requires requests + RequestsOf(parts) != [] && expectations + ExpectationsOf(parts) != []
    requires i + |PartsTokens(parts, commas)| <= |tokens|
    ensures RecoveredTestItems(tokens, i, room, requests, expectations, errors)
         == Some(Recovered((requests + RequestsOf(parts), expectations + ExpectationsOf(parts)),
                           i + |PartsTokens(parts, commas)| + 1, errors + StrayErrors(parts)))
    decreases |parts|
  {
    hide *;
    PartsStart(tokens, i, parts, room, commas);
    Parsing.RecoveredItemsStep(tokens, i, room, requests, expectations, errors);
    PartsCons(parts, room, commas, requests, expectations, errors);
    if parts != [] {
      var first, rest := PartTokens(parts[0], commas), PartsTokens(parts[1..], commas);
      AtAppend(tokens, i, first, rest);
      PartsMove(parts, requests, expectations, errors, room);
      PartsStart(tokens, i + |first|, parts[1..], room, commas);
      TestPartsAreNoBoundary();
      match parts[0] {
        case StrayPart(junk) =>
          StrayPartIs(parts[0], room, commas);
          NoiseRecovery.NoiseIsSkipped(tokens, i, junk, TestItemStop);
          StrayKinds(junk[0]);
          PartsSurvive(tokens, i + |first|, parts[1..], room, commas, requests, expectations,
                       errors + [UnexpectedToken(junk[0])]);
        case RequestPart(request) =>
          RequestPartIs(parts[0], room, commas);
          NoExpectationYet(parts, expectations);
          RequestParses(tokens, i, request, room, commas);
          PartsSurvive(tokens, i + |first|, parts[1..], room, commas, requests + [request], expectations, errors);
        case ExpectationPart(expectation) =>
          ExpectationPartIs(parts[0], room, commas);
          ExpectationParses(tokens, i, expectation, room, commas);
          PartsSurvive(tokens, i + |first|, parts[1..], room, commas, requests, expectations + [expectation], errors);
      }
    }
  }

  lemma TestPartsAreNoBoundary()
    ensures !SuiteBoundary(REQUEST) && !SuiteBoundary(EXPECT)
  {
  }

  lemma StrayKinds(kind: TokenKind)
    requires !TestItemStop(kind)
    ensures kind != RIGHT_BRACE && !SuiteBoundary(kind) && kind != REQUEST && kind != EXPECT
  {
  }

  lemma NoExpectationYet(parts: seq<TestPart>, expectations: seq<ExpectationAst>)
    requires parts != [] && parts[0].RequestPart? && (expectations != [] ==> RequestsOf(parts) == [])
    ensures expectations == []
  {
  }

  lemma StrayPartIs(part: TestPart, room: nat, commas: bool)
    requires PartOk(part, room) && part.StrayPart?
    ensures PartTokens(part, commas) == part.tokens && NoiseRecovery.IsNoise(part.tokens, TestItemStop)
    ensures part.tokens != []
  {
  }

  lemma RequestPartIs(part: TestPart, room: nat, commas: bool)
    requires PartOk(part, room) && part.RequestPart?
    ensures PartTokens(part, commas) == RequestTokens(part.request, commas) && RequestFits(part.request, room)
  {
  }

  lemma ExpectationPartIs(part: TestPart, room: nat, commas: bool)
    requires PartOk(part, room) && part.ExpectationPart?
    ensures PartTokens(part, commas) == ExpectationTokens(part.expectation, commas)
    ensures ExpectationFits(part.expectation, room)
  {
  }
}
