/**
 * Recovery keeps what is in order: with runs of noise between tests and between blocks, the parser still yields every
 * test and every block, and reports each run exactly once, by its first token.
 */
module NoiseRecovery {
  import opened Wrappers
  import opened Ast
  import opened Tokens
  import opened Grammar
  import opened Canonical
  import opened Recovery
  import opened PrintParse
  import Parsing

  datatype TestPiece = Noise(tokens: seq<TokenKind>) | Sound(test: TestAst)

  datatype BlockLayout =
    | CoreLayout(pieces: seq<TestPiece>)
    | PipelineLayout(name: string, pieces: seq<TestPiece>)
    | StandaloneLayout(test: TestAst)

  datatype SuitePiece = Between(tokens: seq<TokenKind>) | Block(layout: BlockLayout)

  /** Tokens none of which recovery stops at. */
  predicate IsNoise(tokens: seq<TokenKind>, stops: TokenKind -> bool) {
    tokens != [] && forall k | 0 <= k < |tokens| :: tokens[k] != EOF && !stops(tokens[k])
  }

  ghost predicate PieceOk(piece: TestPiece, room: nat) {
    match piece
    case Noise(tokens) => IsNoise(tokens, ContainedTestStop)
    case Sound(test) => TestFits(test, room)
  }

  /** Sound tests with at most one run of noise between two of them. */
  ghost predicate PiecesOk(pieces: seq<TestPiece>, room: nat) {
    && (forall k | 0 <= k < |pieces| :: PieceOk(pieces[k], room))
    && forall j, k | 0 <= j < k < |pieces| && k == j + 1 :: !(pieces[j].Noise? && pieces[k].Noise?)
  }

  ghost predicate LayoutOk(layout: BlockLayout, room: nat) {
    match layout
    case CoreLayout(pieces) => PiecesOk(pieces, room)
    case PipelineLayout(_, pieces) => PiecesOk(pieces, room) && SoundTests(pieces) != []
    case StandaloneLayout(test) => TestFits(test, room)
  }

  ghost predicate SuitePieceOk(piece: SuitePiece, room: nat) {
    match piece
    case Between(tokens) => IsNoise(tokens, SuiteBoundary)
    case Block(layout) => LayoutOk(layout, room)
  }

  predicate IsCore(piece: SuitePiece) {
    piece.Block? && piece.layout.CoreLayout?
  }

  ghost predicate SuitePiecesOk(pieces: seq<SuitePiece>, room: nat, hasCore: bool) {
    && (forall k | 0 <= k < |pieces| :: SuitePieceOk(pieces[k], room))
    && (forall j, k | 0 <= j < k < |pieces| && k == j + 1 :: !(pieces[j].Between? && pieces[k].Between?))
    && (forall j, k | 0 <= j < k < |pieces| :: !(IsCore(pieces[j]) && IsCore(pieces[k])))
    && (hasCore ==> forall k | 0 <= k < |pieces| :: !IsCore(pieces[k]))
  }

  // ---- what is written, and what should come out of it ----

  function PieceTokens(piece: TestPiece, commas: bool): seq<TokenKind> {
    match piece
    case Noise(tokens) => tokens
    case Sound(test) => TestTokens(test, commas)
  }

  function PiecesTokens(pieces: seq<TestPiece>, commas: bool): seq<TokenKind> {
    if pieces == [] then [] else PieceTokens(pieces[0], commas) + PiecesTokens(pieces[1..], commas)
  }

  function SoundTests(pieces: seq<TestPiece>): seq<TestAst> {
    if pieces == [] then []
    else (if pieces[0].Sound? then [pieces[0].test] else []) + SoundTests(pieces[1..])
  }

  function NoiseErrors(pieces: seq<TestPiece>): Errors {
    if pieces == [] then []
    else
      (if pieces[0].Noise? && pieces[0].tokens != [] then [UnexpectedToken(pieces[0].tokens[0])] else [])
      + NoiseErrors(pieces[1..])
  }

  function LayoutTokens(layout: BlockLayout, commas: bool): seq<TokenKind> {
    match layout
    case CoreLayout(pieces) => [CORE, LEFT_BRACE] + PiecesTokens(pieces, commas) + [RIGHT_BRACE]
    case PipelineLayout(name, pieces) =>
      [PIPELINE, StringLiteral(name), LEFT_BRACE] + PiecesTokens(pieces, commas) + [RIGHT_BRACE]
    case StandaloneLayout(test) => TestTokens(test, commas)
  }

  function LayoutBlock(layout: BlockLayout): BlockAst {
    match layout
    case CoreLayout(pieces) => CoreAst(SoundTests(pieces))
    case PipelineLayout(name, pieces) => PipelineAst(name, SoundTests(pieces))
    case StandaloneLayout(test) => StandaloneAst(test)
  }

  function LayoutErrors(layout: BlockLayout): Errors {
    if layout.StandaloneLayout? then [] else NoiseErrors(layout.pieces)
  }

  function SuitePieceTokens(piece: SuitePiece, commas: bool): seq<TokenKind> {
    match piece
    case Between(tokens) => tokens
    case Block(layout) => LayoutTokens(layout, commas)
  }

  function SuitePiecesTokens(pieces: seq<SuitePiece>, commas: bool): seq<TokenKind> {
    if pieces == [] then [] else SuitePieceTokens(pieces[0], commas) + SuitePiecesTokens(pieces[1..], commas)
  }

  function SoundBlocks(pieces: seq<SuitePiece>): seq<BlockAst> {
    if pieces == [] then []
    else (if pieces[0].Block? then [LayoutBlock(pieces[0].layout)] else []) + SoundBlocks(pieces[1..])
  }

  function PieceErrors(piece: SuitePiece): Errors {
    match piece
    case Between(tokens) => if tokens == [] then [] else [UnexpectedToken(tokens[0])]
    case Block(layout) => LayoutErrors(layout)
  }

  function SuiteNoiseErrors(pieces: seq<SuitePiece>): Errors {
    if pieces == [] then [] else PieceErrors(pieces[0]) + SuiteNoiseErrors(pieces[1..])
  }

  // ---- one run of noise ----

  lemma {:induction false} StopsBehindNoise(
    tokens: seq<TokenKind>, i: nat, noise: seq<TokenKind>, stops: TokenKind -> bool)
    requires At(tokens, i, noise) && forall k | 0 <= k < |noise| :: noise[k] != EOF && !stops(noise[k])
    requires Peek(tokens, i + |noise|) == EOF || stops(Peek(tokens, i + |noise|))
    ensures FirstStop(tokens, i, stops) == i + |noise|
    decreases |noise|
  {
    hide Peek;
    if noise != [] {
      AtPeek(tokens, i, noise, 0);
      assert [noise[0]] + noise[1..] == noise;
      AtAppend(tokens, i, [noise[0]], noise[1..]);
      StopsBehindNoise(tokens, i + 1, noise[1..], stops);
    }
  }

  lemma NoiseIsSkipped(tokens: seq<TokenKind>, i: nat, noise: seq<TokenKind>, stops: TokenKind -> bool)
    requires At(tokens, i, noise) && IsNoise(noise, stops)
    requires Peek(tokens, i + |noise|) == EOF || stops(Peek(tokens, i + |noise|))
    ensures i < |tokens| && Peek(tokens, i) == noise[0] && noise[0] != EOF && !stops(noise[0])
    ensures FirstStop(tokens, i + 1, stops) == i + |noise|
  {
    hide Peek;
    hide FirstStop;
    AtPeek(tokens, i, noise, 0);
    assert [noise[0]] + noise[1..] == noise;
    AtAppend(tokens, i, [noise[0]], noise[1..]);
    StopsBehindNoise(tokens, i + 1, noise[1..], stops);
  }

  // ---- containers ----

  lemma PiecesCons(pieces: seq<TestPiece>, room: nat, commas: bool)
    requires PiecesOk(pieces, room) && pieces != []
    ensures PieceOk(pieces[0], room) && PiecesOk(pieces[1..], room)
    ensures pieces[0].Noise? && |pieces| > 1 ==> pieces[1..][0].Sound?
    ensures PiecesTokens(pieces, commas) == PieceTokens(pieces[0], commas) + PiecesTokens(pieces[1..], commas)
    ensures SoundTests(pieces) == (if pieces[0].Sound? then [pieces[0].test] else []) + SoundTests(pieces[1..])
    ensures NoiseErrors(pieces)
         == (if pieces[0].Noise? then [UnexpectedToken(pieces[0].tokens[0])] else []) + NoiseErrors(pieces[1..])
  {
    hide TestFits;
    assert PieceOk(pieces[0], room);
    assert forall k | 0 <= k < |pieces| - 1 :: pieces[1..][k] == pieces[k + 1];
  }

  /** What stands at the start of the pieces: a test, or noise, or the closing brace behind them. */
  lemma PiecesStart(tokens: seq<TokenKind>, i: nat, pieces: seq<TestPiece>, room: nat, commas: bool)
    requires At(tokens, i, PiecesTokens(pieces, commas)) && Peek(tokens, i + |PiecesTokens(pieces, commas)|) == RIGHT_BRACE
    requires PiecesOk(pieces, room)
    ensures pieces == [] ==> Peek(tokens, i) == RIGHT_BRACE
    ensures pieces != [] && pieces[0].Sound? ==> Peek(tokens, i) == TEST
    ensures pieces == [] || pieces[0].Sound? ==> ContainedTestStop(Peek(tokens, i))
  {
    hide Peek;
    hide At;
    hide TestFits;
    if pieces != [] && pieces[0].Sound? {
      PiecesCons(pieces, room, commas);
      AtAppend(tokens, i, PieceTokens(pieces[0], commas), PiecesTokens(pieces[1..], commas));
      TestParses(tokens, i, pieces[0].test, room, commas);
    }
  }

  lemma {:induction false} PiecesRecovered(
    tokens: seq<TokenKind>, i: nat, pieces: seq<TestPiece>, room: nat, done: seq<TestAst>, errors: Errors, commas: bool)
    requires At(tokens, i, PiecesTokens(pieces, commas)) && Peek(tokens, i + |PiecesTokens(pieces, commas)|) == RIGHT_BRACE
    requires PiecesOk(pieces, room)
    ensures RecoveredTests(tokens, i, room, done, errors)
         == Some(Recovered(done + SoundTests(pieces), i + |PiecesTokens(pieces, commas)|, errors + NoiseErrors(pieces)))
    decreases |pieces|
  {
    hide *;
    PiecesStart(tokens, i, pieces, room, commas);
    Parsing.TestsStep(tokens, i, room, done, errors);
    if pieces == [] {
      NothingLeft(done, errors, commas);
    } else {
      PiecesCons(pieces, room, commas);
      var first, rest := PieceTokens(pieces[0], commas), PiecesTokens(pieces[1..], commas);
      AtAppend(tokens, i, first, rest);
      PiecesStart(tokens, i + |first|, pieces[1..], room, commas);
      if pieces[0].Sound? {
        SoundPiece(pieces[0], room, commas);
        TestsAreNoBoundary();
        TestParses(tokens, i, pieces[0].test, room, commas);
        PiecesRecovered(tokens, i + |first|, pieces[1..], room, done + [pieces[0].test], errors, commas);
        MoveOver(done, pieces[0].test, SoundTests(pieces[1..]));
        MoveNothing(errors, NoiseErrors(pieces[1..]));
      } else {
        NoisePiece(pieces[0], room, commas);
        NoiseIsSkipped(tokens, i, pieces[0].tokens, ContainedTestStop);
        NoiseKinds(pieces[0].tokens[0]);
        PiecesRecovered(tokens, i + |first|, pieces[1..], room, done,
                        errors + [UnexpectedToken(pieces[0].tokens[0])], commas);
        MoveOver(errors, UnexpectedToken(pieces[0].tokens[0]), NoiseErrors(pieces[1..]));
        MoveNothing(done, SoundTests(pieces[1..]));
      }
    }
  }

  lemma NothingLeft(done: seq<TestAst>, errors: Errors, commas: bool)
    ensures SoundTests([]) == [] && NoiseErrors([]) == [] && PiecesTokens([], commas) == []
    ensures done + [] == done && errors + [] == errors
  {
  }

  lemma MoveOver<T>(done: seq<T>, item: T, rest: seq<T>)
    ensures done + [item] + rest == done + ([item] + rest)
  {
  }

  lemma MoveNothing<T>(done: seq<T>, rest: seq<T>)
    ensures done + ([] + rest) == done + rest
  {
  }

  lemma SoundPiece(piece: TestPiece, room: nat, commas: bool)
    requires PieceOk(piece, room) && piece.Sound?
    ensures TestFits(piece.test, room) && PieceTokens(piece, commas) == TestTokens(piece.test, commas)
  {
  }

  lemma NoisePiece(piece: TestPiece, room: nat, commas: bool)
    requires PieceOk(piece, room) && piece.Noise?
    ensures IsNoise(piece.tokens, ContainedTestStop) && PieceTokens(piece, commas) == piece.tokens && piece.tokens != []
  {
  }

  lemma TestsAreNoBoundary()
    ensures !OuterBlockBoundary(TEST)
  {
  }

  lemma NoiseKinds(kind: TokenKind)
    requires !ContainedTestStop(kind)
    ensures kind != RIGHT_BRACE && !OuterBlockBoundary(kind) && kind != TEST
  {
  }

  // ---- blocks ----

  /** What is written between braces, on its own. */
  lemma BracedRecovered(
    tokens: seq<TokenKind>, i: nat, head: seq<TokenKind>, pieces: seq<TestPiece>, room: nat, errors: Errors, commas: bool)
    requires At(tokens, i, head + PiecesTokens(pieces, commas) + [RIGHT_BRACE]) && PiecesOk(pieces, room)
    ensures At(tokens, i, head)
    ensures RecoveredTests(tokens, i + |head|, room, [], errors)
         == Some(Recovered(SoundTests(pieces), i + |head| + |PiecesTokens(pieces, commas)|, errors + NoiseErrors(pieces)))
    ensures |head + PiecesTokens(pieces, commas) + [RIGHT_BRACE]| == |head| + |PiecesTokens(pieces, commas)| + 1
  {
    hide *;
    var inner := PiecesTokens(pieces, commas);
    AtThree(tokens, i, head, inner, [RIGHT_BRACE]);
    AtPeek(tokens, i + |head| + |inner|, [RIGHT_BRACE], 0);
    PiecesRecovered(tokens, i + |head|, pieces, room, [], errors, commas);
    NothingBefore(SoundTests(pieces));
  }

  lemma CoreRecovered(
    tokens: seq<TokenKind>, i: nat, pieces: seq<TestPiece>, room: nat, errors: Errors, commas: bool)
    requires At(tokens, i, LayoutTokens(CoreLayout(pieces), commas)) && PiecesOk(pieces, room)
    ensures Peek(tokens, i) == CORE
    ensures RecoveredBlock(tokens, i, room, errors)
         == Some(Recovered(CoreAst(SoundTests(pieces)), i + |LayoutTokens(CoreLayout(pieces), commas)|,
                           errors + NoiseErrors(pieces)))
  {
    hide At;
    hide Peek;
    hide RecoveredTests;
    hide RecoveredPipeline;
    hide TestAt;
    hide PiecesTokens;
    hide SoundTests;
    hide NoiseErrors;
    hide PiecesOk;
    var head := [CORE, LEFT_BRACE];
    BracedRecovered(tokens, i, head, pieces, room, errors, commas);
    AtPeek(tokens, i, head, 0);
    AtPeek(tokens, i, head, 1);
  }

  lemma PipelineRecovered(
    tokens: seq<TokenKind>, i: nat, name: string, pieces: seq<TestPiece>, room: nat, errors: Errors, commas: bool)
    requires At(tokens, i, LayoutTokens(PipelineLayout(name, pieces), commas))
    requires PiecesOk(pieces, room) && SoundTests(pieces) != []
    ensures Peek(tokens, i) == PIPELINE
    ensures RecoveredBlock(tokens, i, room, errors)
         == Some(Recovered(PipelineAst(name, SoundTests(pieces)), i + |LayoutTokens(PipelineLayout(name, pieces), commas)|,
                           errors + NoiseErrors(pieces)))
  {
    hide At;
    hide Peek;
    hide RecoveredTests;
    hide RecoveredCore;
    hide TestAt;
    hide PiecesTokens;
    hide SoundTests;
    hide NoiseErrors;
    hide PiecesOk;
    var head := [PIPELINE, StringLiteral(name), LEFT_BRACE];
    BracedRecovered(tokens, i, head, pieces, room, errors, commas);
    AtPeek(tokens, i, head, 0);
    AtPeek(tokens, i, head, 1);
    AtPeek(tokens, i, head, 2);
  }

  lemma StandaloneRecovered(
    tokens: seq<TokenKind>, i: nat, test: TestAst, room: nat, errors: Errors, commas: bool)
    requires At(tokens, i, TestTokens(test, commas)) && TestFits(test, room)
    ensures Peek(tokens, i) == TEST
    ensures RecoveredBlock(tokens, i, room, errors)
         == Some(Recovered(StandaloneAst(test), i + |TestTokens(test, commas)|, errors))
  {
    hide At;
    hide Peek;
    hide TestAt;
    hide RecoveredCore;
    hide RecoveredPipeline;
    hide TestTokens;
    hide TestFits;
    TestParses(tokens, i, test, room, commas);
  }

  lemma LayoutRecovered(
    tokens: seq<TokenKind>, i: nat, layout: BlockLayout, room: nat, errors: Errors, commas: bool)
    requires At(tokens, i, LayoutTokens(layout, commas)) && LayoutOk(layout, room)
    ensures RecoveredBlock(tokens, i, room, errors)
         == Some(Recovered(LayoutBlock(layout), i + |LayoutTokens(layout, commas)|, errors + LayoutErrors(layout)))
    ensures SuiteBoundary(Peek(tokens, i)) && (Peek(tokens, i) == CORE <==> layout.CoreLayout?)
  {
    hide At;
    hide Peek;
    hide RecoveredBlock;
    hide PiecesTokens;
    hide SoundTests;
    hide NoiseErrors;
    hide TestTokens;
    hide TestFits;
    hide PiecesOk;
    match layout
    case CoreLayout(pieces) =>
      CoreRecovered(tokens, i, pieces, room, errors, commas);
    case PipelineLayout(name, pieces) =>
      PipelineRecovered(tokens, i, name, pieces, room, errors, commas);
    case StandaloneLayout(test) =>
      StandaloneRecovered(tokens, i, test, room, errors, commas);
      assert errors + [] == errors;
  }

  // ---- suites ----

  lemma SuitePiecesCons(pieces: seq<SuitePiece>, room: nat, hasCore: bool, commas: bool)
    requires SuitePiecesOk(pieces, room, hasCore) && pieces != []
    ensures SuitePieceOk(pieces[0], room) && SuitePiecesOk(pieces[1..], room, hasCore || IsCore(pieces[0]))
    ensures pieces[0].Between? && |pieces| > 1 ==> pieces[1..][0].Block?
    ensures IsCore(pieces[0]) ==> !hasCore
    ensures SuitePiecesTokens(pieces, commas)
         == SuitePieceTokens(pieces[0], commas) + SuitePiecesTokens(pieces[1..], commas)
    ensures SoundBlocks(pieces)
         == (if pieces[0].Block? then [LayoutBlock(pieces[0].layout)] else []) + SoundBlocks(pieces[1..])
    ensures SuiteNoiseErrors(pieces) == PieceErrors(pieces[0]) + SuiteNoiseErrors(pieces[1..])
  {
    hide SuitePieceOk;
    assert SuitePieceOk(pieces[0], room);
    assert forall k | 0 <= k < |pieces| - 1 :: pieces[1..][k] == pieces[k + 1];
  }

  lemma SuitePiecesStart(
    tokens: seq<TokenKind>, i: nat, pieces: seq<SuitePiece>, room: nat, hasCore: bool, commas: bool)
    requires At(tokens, i, SuitePiecesTokens(pieces, commas))
    requires Peek(tokens, i + |SuitePiecesTokens(pieces, commas)|) == EOF
    requires SuitePiecesOk(pieces, room, hasCore)
    ensures pieces == [] ==> Peek(tokens, i) == EOF
    ensures pieces != [] && pieces[0].Block? ==> SuiteBoundary(Peek(tokens, i))
  {
    hide Peek;
    hide At;
    hide LayoutOk;
    hide SuiteBoundary;
    if pieces != [] && pieces[0].Block? {
      SuitePiecesCons(pieces, room, hasCore, commas);
      AtAppend(tokens, i, SuitePieceTokens(pieces[0], commas), SuitePiecesTokens(pieces[1..], commas));
      LayoutRecovered(tokens, i, pieces[0].layout, room, [], commas);
    }
  }

  lemma {:induction false} SuitePiecesRecovered(
    tokens: seq<TokenKind>, i: nat, pieces: seq<SuitePiece>, room: nat, hasCore: bool, done: seq<BlockAst>,
    errors: Errors, commas: bool)
    requires At(tokens, i, SuitePiecesTokens(pieces, commas))
    requires Peek(tokens, i + |SuitePiecesTokens(pieces, commas)|) == EOF
    requires SuitePiecesOk(pieces, room, hasCore) && done + SoundBlocks(pieces) != []
    ensures RecoveredBlocks(tokens, i, room, hasCore, done, errors)
         == Some((done + SoundBlocks(pieces), errors + SuiteNoiseErrors(pieces)))
    decreases |pieces|
  {
    hide *;
    SuitePiecesStart(tokens, i, pieces, room, hasCore, commas);
    Parsing.BlocksStep(tokens, i, room, hasCore, done, errors);
    if pieces == [] {
      NoPiecesLeft(done, errors);
    } else {
      SuitePiecesCons(pieces, room, hasCore, commas);
      var first, rest := SuitePieceTokens(pieces[0], commas), SuitePiecesTokens(pieces[1..], commas);
      AtAppend(tokens, i, first, rest);
      SuitePiecesStart(tokens, i + |first|, pieces[1..], room, hasCore || IsCore(pieces[0]), commas);
      var more := PieceErrors(pieces[0]);
      Regrouped(errors, more, SuiteNoiseErrors(pieces[1..]));
      if pieces[0].Block? {
        var layout := pieces[0].layout;
        BlockPiece(pieces[0], room, commas);
        LayoutRecovered(tokens, i, layout, room, errors, commas);
        MoveOver(done, LayoutBlock(layout), SoundBlocks(pieces[1..]));
        SuitePiecesRecovered(tokens, i + |first|, pieces[1..], room, hasCore || IsCore(pieces[0]),
                             done + [LayoutBlock(layout)], errors + more, commas);
        BoundariesAreNoEnd(Peek(tokens, i));
      } else {
        BetweenPiece(pieces[0], room, commas);
        NoiseIsSkipped(tokens, i, pieces[0].tokens, SuiteBoundary);
        MoveNothing(done, SoundBlocks(pieces[1..]));
        SuitePiecesRecovered(tokens, i + |first|, pieces[1..], room, hasCore, done, errors + more, commas);
      }
    }
  }

  lemma Regrouped<T>(a: seq<T>, b: seq<T>, c: seq<T>)
    ensures a + b + c == a + (b + c)
  {
  }

  lemma NoPiecesLeft(done: seq<BlockAst>, errors: Errors)
    ensures SoundBlocks([]) == [] && SuiteNoiseErrors([]) == []
    ensures done + [] == done && errors + [] == errors
  {
  }

  lemma BoundariesAreNoEnd(kind: TokenKind)
    requires SuiteBoundary(kind)
    ensures kind != EOF
  {
  }

  lemma BlockPiece(piece: SuitePiece, room: nat, commas: bool)
    requires SuitePieceOk(piece, room) && piece.Block?
    ensures LayoutOk(piece.layout, room) && SuitePieceTokens(piece, commas) == LayoutTokens(piece.layout, commas)
    ensures PieceErrors(piece) == LayoutErrors(piece.layout) && (IsCore(piece) <==> piece.layout.CoreLayout?)
  {
  }

  lemma BetweenPiece(piece: SuitePiece, room: nat, commas: bool)
    requires SuitePieceOk(piece, room) && piece.Between?
    ensures IsNoise(piece.tokens, SuiteBoundary) && SuitePieceTokens(piece, commas) == piece.tokens && piece.tokens != []
    ensures PieceErrors(piece) == [UnexpectedToken(piece.tokens[0])] && !IsCore(piece)
  {
  }

  /** Noise between blocks and between tests costs nothing but one error for each run. */
  lemma NoiseIsHarmless(pieces: seq<SuitePiece>, limit: nat, commas: bool)
    requires SuitePiecesOk(pieces, limit, false) && SoundBlocks(pieces) != []
    ensures RecoveredBlocks(SuitePiecesTokens(pieces, commas) + [EOF], 0, limit, false, [], [])
         == Some((SoundBlocks(pieces), SuiteNoiseErrors(pieces)))
  {
    hide SuitePiecesTokens;
    hide RecoveredBlocks;
    hide SuitePiecesOk;
    hide SoundBlocks;
    hide SuiteNoiseErrors;
    var inner := SuitePiecesTokens(pieces, commas);
    var tokens := inner + [EOF];
    assert tokens[0..|inner|] == inner && Peek(tokens, |inner|) == EOF;
    NothingBefore(SoundBlocks(pieces));
    NothingBefore(SuiteNoiseErrors(pieces));
    SuitePiecesRecovered(tokens, 0, pieces, limit, false, [], [], commas);
  }
}
