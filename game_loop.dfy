/** The rule logic of the game loop (Game.mainLoop): whose turn it is, how a move built from the
    mouse or returned by the AI is tagged before the engine plays it, and how a finished game is
    classified into a PGN result and an end-of-game message.

    The engine (GameState, its Move constructor, makeMove, getValidMoves, the terminal flags) is
    not part of this model: its board, en-passant target, flags and check status are inputs. */
module GameLoop {
  import opened ChessTypes
  import opened SanNotation
  import opened PgnExport
  import opened Search
  import opened SearchLaws

  // ---------------------------------------------------------------------------
  // Players and turns.

  datatype GameMode = PlayerVsPlayer | PlayerVsAi

  /** player_one is White's controller and player_two Black's; true means a human. */
  datatype Players = Players(playerOne: bool, playerTwo: bool)

  /** The players a game mode sets up: White is always human, Black is the AI in 'ai' mode. */
  function PlayersFor(mode: GameMode): (p: Players)
    ensures p.playerOne
    ensures p.playerTwo <==> mode != PlayerVsAi
  {
    if mode == PlayerVsAi then Players(true, false) else Players(true, true)
  }

  /** human_turn: the side to move is controlled by a human. */
  function HumanTurn(whiteToMove: bool, mode: GameMode): (human: bool)
    ensures human <==> whiteToMove || mode == PlayerVsPlayer
  {
    var p := PlayersFor(mode);
    (whiteToMove && p.playerOne) || (!whiteToMove && p.playerTwo)
  }

  /** The condition under which the loop runs (or polls) the AI search. */
  predicate AiToMove(mode: GameMode, gameOver: bool, whiteToMove: bool, moveUndone: bool)
  {
    mode == PlayerVsAi && !gameOver && !HumanTurn(whiteToMove, mode) && !moveUndone
  }

  /** The AI only ever moves for Black, and never on a turn the mouse handlers accept. */
  lemma AiPlaysBlack(mode: GameMode, gameOver: bool, whiteToMove: bool, moveUndone: bool)
    ensures AiToMove(mode, gameOver, whiteToMove, moveUndone) <==>
            mode == PlayerVsAi && !whiteToMove && !gameOver && !moveUndone
    ensures AiToMove(mode, gameOver, whiteToMove, moveUndone) ==> !HumanTurn(whiteToMove, mode)
  {
  }

  // ---------------------------------------------------------------------------
  // End of game.

  /** The engine's five terminal flags. */
  datatype Terminal = Terminal(checkmate: bool, stalemate: bool, fiftyMoveRule: bool,
                               threefoldRepetition: bool, insufficientMaterial: bool)

  predicate GameOver(t: Terminal)
  {
    t.checkmate || t.stalemate || t.fiftyMoveRule || t.threefoldRepetition || t.insufficientMaterial
  }

  /** The messages the loop reports at the end of a game. */
  datatype EndMessage =
    | BlackWinsByMate | WhiteWinsByMate | DrawNoMoves | DrawThreefold | DrawFiftyMove | DrawInsufficient

  function MessageText(m: EndMessage): string
  {
    match m
    case BlackWinsByMate => "Đen thắng bằng chiếu hết"
    case WhiteWinsByMate => "Trắng thắng bằng chiếu hết"
    case DrawNoMoves => "Hòa do hết nước đi"
    case DrawThreefold => "Hòa do lặp lại nước đi 3 lần"
    case DrawFiftyMove => "Hòa do luật 50 nước"
    case DrawInsufficient => "Hòa do không đủ quân chiếu hết"
  }

  /** The result written to the PGN file of a finished game: on checkmate the side to move has
      lost, every other ending is a draw. */
  function ResultOf(t: Terminal, whiteToMove: bool): (result: string)
    ensures result in {"1-0", "0-1", "1/2-1/2"}
    ensures result == "1/2-1/2" <==> !t.checkmate
    ensures result == "1-0" <==> t.checkmate && !whiteToMove
    ensures result == "0-1" <==> t.checkmate && whiteToMove
  {
    if t.checkmate then (if !whiteToMove then "1-0" else "0-1") else "1/2-1/2"
  }

  /** The message of a finished game: the winner on checkmate, otherwise the first draw reason in
      the order stalemate, threefold repetition, fifty-move rule, insufficient material. */
  function MessageOf(t: Terminal, whiteToMove: bool): (m: EndMessage)
    requires GameOver(t)
    ensures m == BlackWinsByMate <==> t.checkmate && whiteToMove
    ensures m == WhiteWinsByMate <==> t.checkmate && !whiteToMove
    ensures m == DrawNoMoves <==> !t.checkmate && t.stalemate
    ensures m == DrawThreefold <==> !t.checkmate && !t.stalemate && t.threefoldRepetition
    ensures m == DrawFiftyMove <==>
            !t.checkmate && !t.stalemate && !t.threefoldRepetition && t.fiftyMoveRule
    ensures m == DrawInsufficient <==>
            !t.checkmate && !t.stalemate && !t.threefoldRepetition && !t.fiftyMoveRule
    ensures m == DrawInsufficient ==> t.insufficientMaterial
  {
    if t.checkmate then
      (if whiteToMove then BlackWinsByMate else WhiteWinsByMate)
    else if t.stalemate then DrawNoMoves
    else if t.threefoldRepetition then DrawThreefold
    else if t.fiftyMoveRule then DrawFiftyMove
    else DrawInsufficient
  }

  datatype Outcome = Outcome(result: string, message: EndMessage)

  /** The end-of-game check at the bottom of the loop: nothing while no flag is set. */
  function GameEnd(t: Terminal, whiteToMove: bool): (o: Option<Outcome>)
    ensures o.Some? <==> GameOver(t)
  {
    if GameOver(t) then Some(Outcome(ResultOf(t, whiteToMove), MessageOf(t, whiteToMove)))
    else None
  }

  /** The message and the result of a finished game tell the same story. */
  lemma OutcomeAgrees(t: Terminal, whiteToMove: bool)
    requires GameOver(t)
    ensures var o := GameEnd(t, whiteToMove).value;
      (o.message == WhiteWinsByMate <==> o.result == "1-0") &&
      (o.message == BlackWinsByMate <==> o.result == "0-1") &&
      (o.message !in {WhiteWinsByMate, BlackWinsByMate} <==> o.result == "1/2-1/2")
  {
  }

  /** The exported game of a finished game with at least one move: its last line is the last move
      pair followed by the result, and the header is followed by one blank line. */
  lemma EndedGameExport(t: Terminal, whiteToMove: bool, event: string, site: string, date: string,
                        white: string, black: string, sans: seq<string>)
    requires GameOver(t) && sans != []
    requires NoNewline(event) && NoNewline(site) && NoNewline(date) && NoNewline(white)
    requires NoNewline(black)
    requires forall i :: 0 <= i < |sans| ==> NoNewline(sans[i])
    ensures var result := GameEnd(t, whiteToMove).value.result;
      var lines := Split(PgnString(event, site, date, white, black, result, sans));
      |lines| == 8 + (|sans| + 1) / 2 && lines[7] == "" &&
      lines[|lines| - 1] == PairLine(sans, (|sans| - 1) / 2, 1) + " " + result
  {
    var result := GameEnd(t, whiteToMove).value.result;
    assert NoNewline(result) by {
      assert result == "1-0" || result == "0-1" || result == "1/2-1/2";
    }
    DecidedGameLines(event, site, date, white, black, result, sans);
  }

  // ---------------------------------------------------------------------------
  // Move tagging.

  /** Python's board[i] for a row index that may be out of range: -8..-1 count from the end,
      anything else raises IndexError (None). */
  function PythonRow(i: int): (r: Option<Coord>)
    ensures r.Some? <==> -8 <= i < 8
    ensures r.Some? ==> r.value == i % 8
  {
    if 0 <= i < 8 then Some(i) else if -8 <= i < 0 then Some(i + 8) else None
  }

  function Abs(x: int): nat { if x < 0 then -x else x }

  /** The first five conditions of the en-passant check: a pawn moving one row and one column
      onto an empty square that is the engine's enpassant_possible. */
  predicate EnPassantShape(board: Board, start: Square, end: Square, piece: Cell,
                           enPassantPossible: Option<Square>)
  {
    piece.Piece? && piece.kind == Pawn &&
    Abs(start.row - end.row) == 1 && Abs(start.col - end.col) == 1 &&
    board[end.row][end.col] == Empty &&
    enPassantPossible == Some(end)
  }

  /** captured_row: the row behind the destination, seen from the mover. */
  function CapturedRow(end: Square, mover: Color): int
  {
    if mover == White then end.row + 1 else end.row - 1
  }

  /** Whether the UI tags the move en passant; None when the lookup of the square behind the
      destination raises IndexError (a White destination on the last row). */
  function EnPassantTag(board: Board, start: Square, end: Square, piece: Cell,
                        enPassantPossible: Option<Square>): (tag: Option<bool>)
    ensures tag.None? <==>
            EnPassantShape(board, start, end, piece, enPassantPossible) &&
            piece.color == White && end.row == 7
    ensures tag == Some(true) ==>
            EnPassantShape(board, start, end, piece, enPassantPossible) &&
            board[CapturedRow(end, piece.color) % 8][end.col] == Piece(Opponent(piece.color), Pawn)
  {
    if !EnPassantShape(board, start, end, piece, enPassantPossible) then Some(false)
    else
      match PythonRow(CapturedRow(end, piece.color))
      case None => None
      case Some(row) =>
        var captured := board[row][end.col];
        Some(captured.Piece? && captured.kind == Pawn && captured.color != piece.color)
  }

  /** On the ranks where the engine places its en-passant target (rows 2 and 5), the check never
      fails and tags the move exactly when the square directly behind the destination holds an
      enemy pawn. */
  lemma EnPassantOnTargetRanks(board: Board, start: Square, end: Square, piece: Cell,
                               enPassantPossible: Option<Square>)
    requires enPassantPossible.Some? ==> enPassantPossible.value.row == 2 || enPassantPossible.value.row == 5
    ensures var tag := EnPassantTag(board, start, end, piece, enPassantPossible);
      tag.Some? &&
      (tag.value <==>
         EnPassantShape(board, start, end, piece, enPassantPossible) &&
         0 <= CapturedRow(end, piece.color) < 8 &&
         board[CapturedRow(end, piece.color)][end.col] == Piece(Opponent(piece.color), Pawn))
  {
    var tag := EnPassantTag(board, start, end, piece, enPassantPossible);
    if EnPassantShape(board, start, end, piece, enPassantPossible) {
      assert 0 <= CapturedRow(end, piece.color) < 8;
      assert PythonRow(CapturedRow(end, piece.color)) == Some(CapturedRow(end, piece.color));
    }
  }

  /** A king moving exactly two columns: the UI and the AI path both tag that as a castle. */
  predicate CastleShape(piece: Cell, start: Square, end: Square)
  {
    piece.Piece? && piece.kind == King && Abs(start.col - end.col) == 2
  }

  /** The engine's Move object, as far as the loop touches it. The constructor (in the engine)
      is not part of this model: this one takes the squares, the moved piece and the engine's
      capture and promotion flags as given, and starts with every tag cleared and the default
      promotion 'Q'. */
  class Move {
    const start: Square
    const end: Square
    const pieceMoved: Cell
    const isCapture: bool
    const isPawnPromotion: bool
    var isEnpassant: bool
    var isCastle: bool
    var promotionChoice: char
    var isCheck: bool
    var isCheckmate: bool

    constructor (start: Square, end: Square, board: Board, isCapture: bool, isPawnPromotion: bool)
      ensures this.start == start && this.end == end
      ensures pieceMoved == board[start.row][start.col]
      ensures this.isCapture == isCapture && this.isPawnPromotion == isPawnPromotion
      ensures !isEnpassant && !isCastle && promotionChoice == 'Q' && !isCheck && !isCheckmate
    {
      this.start := start;
      this.end := end;
      pieceMoved := board[start.row][start.col];
      this.isCapture := isCapture;
      this.isPawnPromotion := isPawnPromotion;
      isEnpassant := false;
      isCastle := false;
      promotionChoice := 'Q';
      isCheck := false;
      isCheckmate := false;
    }

    /** The record the PGN exporter reads from the move log: the move's squares, its mover, the
        engine's flags and every tag the loop has set on it. */
    function Record(): (m: MoveRecord)
      requires pieceMoved.Piece?
      reads this
      ensures m.start == start && m.end == end
      ensures m.color == pieceMoved.color && m.kind == pieceMoved.kind
      ensures m.isCapture == isCapture && m.isPawnPromotion == isPawnPromotion
      ensures m.promotionChoice == promotionChoice
      ensures m.isEnpassant == isEnpassant && m.isCastle == isCastle
      ensures m.isCheck == isCheck && m.isCheckmate == isCheckmate
    {
      MoveRecord(start, end, pieceMoved.color, pieceMoved.kind, isCapture,
                 isPawnPromotion, promotionChoice, isEnpassant, isCastle, isCheck, isCheckmate)
    }

    /** The en-passant check on a move released on the board. `failed` is the IndexError case,
        which leaves the move as it was. */
    method TagEnPassant(board: Board, enPassantPossible: Option<Square>) returns (failed: bool)
      modifies this
      ensures failed <==> EnPassantTag(board, start, end, pieceMoved, enPassantPossible).None?
      ensures isEnpassant ==
              (old(isEnpassant) || EnPassantTag(board, start, end, pieceMoved, enPassantPossible) == Some(true))
      ensures isCastle == old(isCastle) && promotionChoice == old(promotionChoice)
      ensures isCheck == old(isCheck) && isCheckmate == old(isCheckmate)
    {
      failed := false;
      if pieceMoved.Piece? && pieceMoved.kind == Pawn &&
         Abs(start.row - end.row) == 1 && Abs(start.col - end.col) == 1 &&
         board[end.row][end.col] == Empty && enPassantPossible == Some(end)
      {
        var capturedRow := if pieceMoved.color == White then end.row + 1 else end.row - 1;
        if capturedRow >= 8 {
          failed := true;
          return;
        }
        var row := if capturedRow < 0 then capturedRow + 8 else capturedRow;
        var captured := board[row][end.col];
        if captured.Piece? && captured.kind == Pawn && captured.color != pieceMoved.color {
          isEnpassant := true;
        }
      }
    }

    /** The castle check; `castle` is the loop's local is_castle. */
    method TagCastle() returns (castle: bool)
      modifies this
      ensures castle <==> CastleShape(pieceMoved, start, end)
      ensures isCastle == (old(isCastle) || castle)
      ensures isEnpassant == old(isEnpassant) && promotionChoice == old(promotionChoice)
      ensures isCheck == old(isCheck) && isCheckmate == old(isCheckmate)
    {
      castle := false;
      if pieceMoved.Piece? && pieceMoved.kind == King && Abs(start.col - end.col) == 2 {
        castle := true;
        isCastle := true;
      }
    }

    /** The promotion piece handed to makeMove: 'Q' unless the move promotes, in which case the
        player's choice is both used and recorded on the move. */
    method SetPromotion(choice: char) returns (promotionPiece: char)
      modifies this
      ensures promotionPiece == (if isPawnPromotion then choice else 'Q')
      ensures promotionChoice == (if isPawnPromotion then choice else old(promotionChoice))
      ensures isEnpassant == old(isEnpassant) && isCastle == old(isCastle)
      ensures isCheck == old(isCheck) && isCheckmate == old(isCheckmate)
    {
      promotionPiece := 'Q';
      if isPawnPromotion {
        promotionPiece := choice;
        promotionChoice := choice;
      }
    }

    /** After makeMove: the move records whether it gave check or checkmate. */
    method Annotate(inCheck: bool, checkmate: bool)
      modifies this
      ensures isCheck == inCheck && isCheckmate == checkmate
      ensures isEnpassant == old(isEnpassant) && isCastle == old(isCastle)
      ensures promotionChoice == old(promotionChoice)
    {
      isCheck := inCheck;
      isCheckmate := checkmate;
    }
  }

  /** The tagging of a move released on the board, before the legality check: the en-passant
      check, then the castle check. `failed` is the IndexError of the en-passant check, after
      which nothing else happens. */
  method TagUiMove(move: Move, board: Board, enPassantPossible: Option<Square>)
    returns (castle: bool, failed: bool)
    modifies move
    ensures failed <==> EnPassantTag(board, move.start, move.end, move.pieceMoved, enPassantPossible).None?
    ensures move.isEnpassant ==
            (old(move.isEnpassant) ||
             EnPassantTag(board, move.start, move.end, move.pieceMoved, enPassantPossible) == Some(true))
    ensures castle <==> !failed && CastleShape(move.pieceMoved, move.start, move.end)
    ensures move.isCastle == (old(move.isCastle) || castle)
    ensures move.promotionChoice == old(move.promotionChoice)
    ensures move.isCheck == old(move.isCheck) && move.isCheckmate == old(move.isCheckmate)
  {
    castle := false;
    failed := move.TagEnPassant(board, enPassantPossible);
    if !failed {
      castle := move.TagCastle();
    }
  }

  /** A legal human move after tagging: the chosen promotion piece is used, and after makeMove
      the engine's check status is recorded. */
  method CompleteHumanMove(move: Move, choice: char, inCheck: bool, checkmate: bool)
    returns (promotionPiece: char)
    modifies move
    ensures promotionPiece == (if move.isPawnPromotion then choice else 'Q')
    ensures move.promotionChoice == (if move.isPawnPromotion then choice else old(move.promotionChoice))
    ensures move.isCheck == inCheck && move.isCheckmate == checkmate
    ensures move.isEnpassant == old(move.isEnpassant) && move.isCastle == old(move.isCastle)
  {
    promotionPiece := move.SetPromotion(choice);
    move.Annotate(inCheck, checkmate);
  }

  /** The AI's move once the search has answered: the castle check, the fixed 'Q' promotion, and
      the check status after makeMove. */
  method CompleteAiMove(move: Move, inCheck: bool, checkmate: bool)
    returns (castle: bool, promotionPiece: char)
    modifies move
    ensures castle <==> CastleShape(move.pieceMoved, move.start, move.end)
    ensures move.isCastle == (old(move.isCastle) || castle)
    ensures promotionPiece == 'Q'
    ensures move.promotionChoice == (if move.isPawnPromotion then 'Q' else old(move.promotionChoice))
    ensures move.isCheck == inCheck && move.isCheckmate == checkmate
    ensures move.isEnpassant == old(move.isEnpassant)
  {
    castle := move.TagCastle();
    promotionPiece := move.SetPromotion('Q');
    move.Annotate(inCheck, checkmate);
  }

  /** A move tagged as a castle is written to the PGN as castling, kingside exactly when the king
      went to the right, whatever else is recorded on it. */
  lemma CastleTagNotation(m: MoveRecord, board: Board, reach: Reach)
    requires m.isCastle
    ensures StandardAlgebraicNotation(m, board, reach) ==
            (if m.end.col - m.start.col == 2 then "O-O" else "O-O-O") + SuffixText(SuffixOf(m))
  {
  }

  /** A move the loop has tagged as a castle (TagUiMove, CompleteAiMove) is exported as castling:
      "O-O" when the king went two columns right, else "O-O-O", then "#" after a checkmate or
      "+" after a check recorded by the loop. */
  lemma RecordedCastle(move: Move, board: Board, reach: Reach)
    requires move.pieceMoved.Piece? && move.isCastle
    ensures StandardAlgebraicNotation(move.Record(), board, reach) ==
            (if move.end.col - move.start.col == 2 then "O-O" else "O-O-O") +
            (if move.isCheckmate then "#" else if move.isCheck then "+" else "")
  {
    CastleTagNotation(move.Record(), board, reach);
  }

  // ---------------------------------------------------------------------------
  // The AI's move.

  /** The move the AI plays: the search's answer, or else random.choice(validMoves) with the
      random index `draw`; no move at all only when both are unavailable (random.choice of an
      empty list raises). */
  function AiChoice<M>(searched: Option<M>, validMoves: seq<M>, draw: nat): (chosen: Option<M>)
    ensures chosen.Some? <==> searched.Some? || validMoves != []
    ensures searched.Some? ==> chosen == searched
    ensures searched.None? && validMoves != [] ==> chosen.value in validMoves
  {
    if searched.Some? then searched
    else if validMoves != [] then Some(validMoves[draw % |validMoves|])
    else None
  }

  /** With the search of findBestMove at the root, the AI plays a legal move whenever the root has
      one: the search's move when it reports one, and a random legal move otherwise. */
  lemma AiPlaysLegalMove(root: Node, rootDraws: seq<nat>, depth: nat, pruning: bool, draw: nat)
    ensures var chosen := AiChoice(BestMove(root, rootDraws, depth, pruning), AllMoves(root), draw);
      (chosen.Some? <==> |root.edges| > 0) &&
      (chosen.Some? ==> chosen.value < |root.edges|)
  {
    var best := BestMove(root, rootDraws, depth, pruning);
    BestMoveLaws(root, rootDraws, depth, pruning);
    if best.Some? {
      MinimaxNode(root, RootMoves(root, rootDraws), depth, root.pos.whiteToMove);
      var order := Ordered(root, RootMoves(root, rootDraws), root.draws);
      var i :| 0 <= i < |order| && order[i] == best.value;
      assert best.value < |root.edges|;
    }
  }
}
