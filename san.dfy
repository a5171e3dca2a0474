// Standard Algebraic Notation as the PGN exporter writes it (_get_standard_algebraic_notation and
// _get_disambiguation), with its two departures from section 8.2.3 of the PGN Standard kept: an
// en-passant capture carries the suffix " e.p.", and a rank is added to a file hint only for rooks.
module SanNotation {
  import opened ChessTypes

  /** What the move log records about a move (the engine's Move object, after the game loop has
      tagged it). */
  datatype MoveRecord = MoveRecord(
    start: Square, end: Square, color: Color, kind: Kind,
    isCapture: bool, isPawnPromotion: bool, promotionChoice: char,
    isEnpassant: bool, isCastle: bool, isCheck: bool, isCheckmate: bool)

  const Files: string := "abcdefgh"
  const Ranks: string := "87654321"

  /** cols_to_files: column 0 is file a. */
  function FileChar(c: Coord): char { Files[c] }

  /** rows_to_ranks: row 0 is rank 8. */
  function RankChar(r: Coord): char { Ranks[r] }

  /** getRankFile: the square's name, file then rank ("e4"). */
  function SquareName(s: Square): string { [FileChar(s.col), RankChar(s.row)] }

  /** The check marker: "#" wins over "+". */
  datatype Suffix = Plain | Check | Mate

  function SuffixOf(m: MoveRecord): Suffix
  {
    if m.isCheckmate then Mate else if m.isCheck then Check else Plain
  }

  function SuffixText(s: Suffix): string
  {
    match s
    case Plain => ""
    case Check => "+"
    case Mate => "#"
  }

  /** The parts a SAN string is made of. */
  datatype San =
    | Castle(kingside: bool, suffix: Suffix)
    | PawnMove(captureFrom: Option<Coord>, dest: Square, promotion: Option<char>,
               suffix: Suffix, enPassant: bool)
    | PieceMove(kind: Kind, fileHint: Option<Coord>, rankHint: Option<Coord>, capture: bool,
                dest: Square, suffix: Suffix, enPassant: bool)

  function HintText(fileHint: Option<Coord>, rankHint: Option<Coord>): string
  {
    (if fileHint.Some? then [FileChar(fileHint.value)] else "") +
    (if rankHint.Some? then [RankChar(rankHint.value)] else "")
  }

  function EnPassantText(enPassant: bool): string
  {
    if enPassant then " e.p." else ""
  }

  /** The move part of a SAN value, before the check marker. */
  function Body(s: San): string
  {
    match s
    case Castle(kingside, _) => if kingside then "O-O" else "O-O-O"
    case PawnMove(from, dest, promotion, _, _) =>
      (if from.Some? then [FileChar(from.value), 'x'] else "") + SquareName(dest) +
      (if promotion.Some? then ['=', promotion.value] else "")
    case PieceMove(kind, fileHint, rankHint, capture, dest, _, _) =>
      [KindLetter(kind)] + HintText(fileHint, rankHint) + (if capture then "x" else "") +
      SquareName(dest)
  }

  /** The text of a SAN value: the move, the check marker, then " e.p." (castling never carries
      it). */
  function Render(s: San): string
  {
    Body(s) + SuffixText(s.suffix) + (if s.Castle? then "" else EnPassantText(s.enPassant))
  }

  // ---------------------------------------------------------------------------
  // Disambiguation.

  /** For every square, whether the piece standing there can move to the destination (the
      engine's per-piece move generators, taken as given). */
  type Reach = g: seq<seq<bool>> | |g| == 8 && forall r :: 0 <= r < 8 ==> |g[r]| == 8
    witness seq(8, _ => seq(8, _ => false))

  /** Another piece of the mover's colour and kind, on the board being exported, that can reach
      the destination. */
  predicate Rival(board: Board, m: MoveRecord, reach: Reach, r: Coord, c: Coord)
  {
    board[r][c] == Piece(m.color, m.kind) && !(r == m.start.row && c == m.start.col) && reach[r][c]
  }

  /** file_disambiguation: some rival stands on another file. */
  predicate FileFlag(board: Board, m: MoveRecord, reach: Reach)
  {
    exists r: Coord, c: Coord :: Rival(board, m, reach, r, c) && c != m.start.col
  }

  /** rank_disambiguation: some rival stands on another rank. */
  predicate RankFlag(board: Board, m: MoveRecord, reach: Reach)
  {
    exists r: Coord, c: Coord :: Rival(board, m, reach, r, c) && r != m.start.row
  }

  /** The origin file when the file flag is up; the origin rank when the rank flag is up and
      either no file was written or the mover is a rook. */
  function FileHint(board: Board, m: MoveRecord, reach: Reach): Option<Coord>
  {
    if FileFlag(board, m, reach) then Some(m.start.col) else None
  }

  function RankHint(board: Board, m: MoveRecord, reach: Reach): Option<Coord>
  {
    if RankFlag(board, m, reach) && (!FileFlag(board, m, reach) || m.kind == Rook)
    then Some(m.start.row) else None
  }

  function Disambiguation(board: Board, m: MoveRecord, reach: Reach): string
  {
    HintText(FileHint(board, m, reach), RankHint(board, m, reach))
  }

  /** A rival on another file has been met among the squares scanned before (r, c), row by row. */
  ghost predicate FileSeen(board: Board, m: MoveRecord, reach: Reach, r: int, c: int)
  {
    exists r': Coord, c': Coord ::
      (r' < r || (r' == r && c' < c)) && Rival(board, m, reach, r', c') && c' != m.start.col
  }

  /** A rival on another rank has been met among the squares scanned before (r, c). */
  ghost predicate RankSeen(board: Board, m: MoveRecord, reach: Reach, r: int, c: int)
  {
    exists r': Coord, c': Coord ::
      (r' < r || (r' == r && c' < c)) && Rival(board, m, reach, r', c') && r' != m.start.row
  }

  lemma ScanStep(board: Board, m: MoveRecord, reach: Reach, r: Coord, c: Coord)
    ensures FileSeen(board, m, reach, r, c + 1) <==>
            FileSeen(board, m, reach, r, c) || (Rival(board, m, reach, r, c) && c != m.start.col)
    ensures RankSeen(board, m, reach, r, c + 1) <==>
            RankSeen(board, m, reach, r, c) || (Rival(board, m, reach, r, c) && r != m.start.row)
  {
    if FileSeen(board, m, reach, r, c + 1) {
      var r': Coord, c': Coord :| (r' < r || (r' == r && c' < c + 1)) &&
        Rival(board, m, reach, r', c') && c' != m.start.col;
      if !(r' == r && c' == c) {
        assert FileSeen(board, m, reach, r, c);
      }
    }
    if RankSeen(board, m, reach, r, c + 1) {
      var r': Coord, c': Coord :| (r' < r || (r' == r && c' < c + 1)) &&
        Rival(board, m, reach, r', c') && r' != m.start.row;
      if !(r' == r && c' == c) {
        assert RankSeen(board, m, reach, r, c);
      }
    }
  }

  lemma ScanRow(board: Board, m: MoveRecord, reach: Reach, r: Coord)
    ensures FileSeen(board, m, reach, r, 8) <==> FileSeen(board, m, reach, r + 1, 0)
    ensures RankSeen(board, m, reach, r, 8) <==> RankSeen(board, m, reach, r + 1, 0)
  {
  }

  lemma ScanAll(board: Board, m: MoveRecord, reach: Reach)
    ensures FileSeen(board, m, reach, 8, 0) <==> FileFlag(board, m, reach)
    ensures RankSeen(board, m, reach, 8, 0) <==> RankFlag(board, m, reach)
  {
  }

  /** _get_disambiguation: the scan over the 64 squares that raises the two flags. */
  method GetDisambiguation(board: Board, m: MoveRecord, reach: Reach) returns (disambiguate: string)
    ensures disambiguate == Disambiguation(board, m, reach)
  {
    var fileDisambiguation, rankDisambiguation := false, false;
    var r := 0;
    while r < 8
      invariant 0 <= r <= 8
      invariant fileDisambiguation <==> FileSeen(board, m, reach, r, 0)
      invariant rankDisambiguation <==> RankSeen(board, m, reach, r, 0)
    {
      var c := 0;
      while c < 8
        invariant 0 <= c <= 8
        invariant fileDisambiguation <==> FileSeen(board, m, reach, r, c)
        invariant rankDisambiguation <==> RankSeen(board, m, reach, r, c)
      {
        ScanStep(board, m, reach, r, c);
        if board[r][c] == Piece(m.color, m.kind) && !(r == m.start.row && c == m.start.col) {
          if reach[r][c] {
            if m.start.col != c {
              fileDisambiguation := true;
            }
            if m.start.row != r {
              rankDisambiguation := true;
            }
          }
        }
        c := c + 1;
      }
      ScanRow(board, m, reach, r);
      r := r + 1;
    }
    ScanAll(board, m, reach);
    disambiguate := "";
    if fileDisambiguation {
      disambiguate := disambiguate + [FileChar(m.start.col)];
    }
    if rankDisambiguation && (!fileDisambiguation || m.kind == Rook) {
      disambiguate := disambiguate + [RankChar(m.start.row)];
    }
  }

  // ---------------------------------------------------------------------------
  // The notation of a logged move.

  /** The parts _get_standard_algebraic_notation puts together for move m. */
  function Notation(m: MoveRecord, board: Board, reach: Reach): San
  {
    if m.isCastle then Castle(m.end.col - m.start.col == 2, SuffixOf(m))
    else if m.kind == Pawn then
      PawnMove(if m.isCapture then Some(m.start.col) else None, m.end,
               if m.isPawnPromotion then Some(m.promotionChoice) else None,
               SuffixOf(m), m.isEnpassant)
    else
      PieceMove(m.kind, FileHint(board, m, reach), RankHint(board, m, reach), m.isCapture, m.end,
                SuffixOf(m), m.isEnpassant)
  }

  /** _get_standard_algebraic_notation. */
  function StandardAlgebraicNotation(m: MoveRecord, board: Board, reach: Reach): string
  {
    Render(Notation(m, board, reach))
  }

  /** _get_standard_algebraic_notation, step by step, with the disambiguation found by the board
      scan. */
  method GetStandardAlgebraicNotation(m: MoveRecord, board: Board, reach: Reach)
    returns (notation: string)
    ensures notation == StandardAlgebraicNotation(m, board, reach)
  {
    ghost var san := Notation(m, board, reach);
    if m.isCastle {
      notation := if m.end.col - m.start.col == 2 then "O-O" else "O-O-O";
      assert notation == Body(san);
      notation := AddSuffix(notation, m);
      assert notation == Body(san) + SuffixText(san.suffix) + "";
      return;
    }
    var capture := if m.isCapture then "x" else "";
    var destination := SquareName(m.end);
    if m.kind == Pawn {
      if m.isCapture {
        notation := [FileChar(m.start.col)] + capture + destination;
      } else {
        notation := destination;
        assert notation == "" + SquareName(m.end);
      }
      if m.isPawnPromotion {
        notation := notation + ['=', m.promotionChoice];
      } else {
        assert notation == notation + "";
      }
    } else {
      var disambiguate := GetDisambiguation(board, m, reach);
      notation := [KindLetter(m.kind)] + disambiguate + capture + destination;
    }
    assert notation == Body(san);
    notation := AddSuffix(notation, m);
    if m.isEnpassant {
      notation := notation + " e.p.";
    } else {
      assert notation == notation + "";
    }
    assert notation == Render(san);
  }

  /** The check marker step of _get_standard_algebraic_notation. */
  method AddSuffix(text: string, m: MoveRecord) returns (notation: string)
    ensures notation == text + SuffixText(SuffixOf(m))
  {
    notation := text;
    if m.isCheckmate {
      notation := notation + "#";
    } else if m.isCheck {
      notation := notation + "+";
    } else {
      assert notation == notation + "";
    }
  }

  // ---------------------------------------------------------------------------
  // Reading SAN back.

  function FileOf(ch: char): (c: Option<Coord>)
  {
    if 'a' <= ch <= 'h' then Some((ch - 'a') as int) else None
  }

  function RankOf(ch: char): (r: Option<Coord>)
  {
    if '1' <= ch <= '8' then Some(('8' - ch) as int) else None
  }

  function KindOf(ch: char): Option<Kind>
  {
    match ch
    case 'K' => Some(King)
    case 'Q' => Some(Queen)
    case 'R' => Some(Rook)
    case 'B' => Some(Bishop)
    case 'N' => Some(Knight)
    case _ => None
  }

  function ReadSquare(s: string): Option<Square>
  {
    if |s| == 2 && FileOf(s[0]).Some? && RankOf(s[1]).Some? then
      Some(Square(RankOf(s[1]).value, FileOf(s[0]).value))
    else None
  }

  /** The letters a promotion can name. */
  predicate PromotionLetter(ch: char)
  {
    ch == 'Q' || ch == 'R' || ch == 'B' || ch == 'N'
  }

  /** The SAN values Render writes unambiguously: pieces other than pawns carry their letter, and a
      promotion names one of Q, R, B, N. */
  predicate WellFormed(s: San)
  {
    match s
    case Castle(_, _) => true
    case PawnMove(_, _, promotion, _, _) => promotion.Some? ==> PromotionLetter(promotion.value)
    case PieceMove(kind, _, _, _, _, _, _) => kind != Pawn
  }

  function ReadHints(s: string): Option<(Option<Coord>, Option<Coord>)>
  {
    if s == [] then Some((None, None))
    else if |s| == 1 && FileOf(s[0]).Some? then Some((FileOf(s[0]), None))
    else if |s| == 1 && RankOf(s[0]).Some? then Some((None, RankOf(s[0])))
    else if |s| == 2 && FileOf(s[0]).Some? && RankOf(s[1]).Some? then Some((FileOf(s[0]), RankOf(s[1])))
    else None
  }

  /** The body of a piece move after its letter: hints, an optional "x", the destination. */
  function ReadPieceBody(kind: Kind, b: string, suffix: Suffix, ep: bool): Option<San>
  {
    if |b| < 2 then None
    else
      var dest := ReadSquare(b[|b| - 2..]);
      var mid := b[..|b| - 2];
      var capture := |mid| >= 1 && mid[|mid| - 1] == 'x';
      var hints := ReadHints(if capture then mid[..|mid| - 1] else mid);
      if dest.None? || hints.None? then None
      else Some(PieceMove(kind, hints.value.0, hints.value.1, capture, dest.value, suffix, ep))
  }

  function ReadPawnBody(b: string, suffix: Suffix, ep: bool): Option<San>
  {
    var promoted := |b| >= 2 && b[|b| - 2] == '=';
    var promotion := if promoted then Some(b[|b| - 1]) else None;
    var move := if promoted then b[..|b| - 2] else b;
    if |move| == 2 && ReadSquare(move).Some? then
      Some(PawnMove(None, ReadSquare(move).value, promotion, suffix, ep))
    else if |move| == 4 && FileOf(move[0]).Some? && move[1] == 'x' && ReadSquare(move[2..]).Some? then
      Some(PawnMove(FileOf(move[0]), ReadSquare(move[2..]).value, promotion, suffix, ep))
    else None
  }

  /** Splits a SAN string into its move part, its check marker and whether it ends in " e.p.". */
  function Suffixes(s: string): (string, Suffix, bool)
  {
    var ep := |s| >= 5 && s[|s| - 5..] == " e.p.";
    var b := if ep then s[..|s| - 5] else s;
    if |b| >= 1 && b[|b| - 1] == '#' then (b[..|b| - 1], Mate, ep)
    else if |b| >= 1 && b[|b| - 1] == '+' then (b[..|b| - 1], Check, ep)
    else (b, Plain, ep)
  }

  /** Reads a SAN string as the exporter writes it. */
  function ReadSan(s: string): Option<San>
  {
    var (body, suffix, ep) := Suffixes(s);
    ReadBody(body, suffix, ep)
  }

  /** Reads the move part of a SAN string, given the marker and " e.p." already split off. */
  function ReadBody(body: string, suffix: Suffix, ep: bool): Option<San>
  {
    if body == "O-O" then (if ep then None else Some(Castle(true, suffix)))
    else if body == "O-O-O" then (if ep then None else Some(Castle(false, suffix)))
    else if |body| >= 1 && KindOf(body[0]).Some? then ReadPieceBody(KindOf(body[0]).value, body[1..], suffix, ep)
    else ReadPawnBody(body, suffix, ep)
  }

  // ---------------------------------------------------------------------------
  // Laws of the notation.

  lemma FileCharRead(c: Coord)
    ensures FileOf(FileChar(c)) == Some(c)
    ensures RankOf(FileChar(c)).None? && KindOf(FileChar(c)).None?
    ensures FileChar(c) !in "x=+#.-O"
  {
    assert Files == ['a', 'b', 'c', 'd', 'e', 'f', 'g', 'h'];
  }

  lemma RankCharRead(r: Coord)
    ensures RankOf(RankChar(r)) == Some(r)
    ensures FileOf(RankChar(r)).None? && KindOf(RankChar(r)).None?
    ensures RankChar(r) !in "x=+#.-O"
  {
    assert Ranks == ['8', '7', '6', '5', '4', '3', '2', '1'];
  }

  lemma SquareRead(sq: Square)
    ensures ReadSquare(SquareName(sq)) == Some(sq)
  {
    FileCharRead(sq.col);
    RankCharRead(sq.row);
  }

  /** A move part that ends in none of '#', '+', '.' comes back out of Suffixes unchanged. */
  lemma SuffixesOf(body: string, suffix: Suffix, ep: bool)
    requires body != [] && body[|body| - 1] !in "#+."
    ensures Suffixes(body + SuffixText(suffix) + EnPassantText(ep)) == (body, suffix, ep)
  {
    var b := body + SuffixText(suffix);
    var s := b + EnPassantText(ep);
    if ep {
      assert s[|s| - 5..] == " e.p.";
      assert s[..|s| - 5] == b;
    } else {
      assert s == b;
      assert s[|s| - 1] != '.';
    }
    match suffix
    case Plain =>
      assert b == body;
    case Check =>
      assert b[|b| - 1] == '+' && b[..|b| - 1] == body;
    case Mate =>
      assert b[|b| - 1] == '#' && b[..|b| - 1] == body;
  }

  lemma HintsRead(fileHint: Option<Coord>, rankHint: Option<Coord>)
    ensures ReadHints(HintText(fileHint, rankHint)) == Some((fileHint, rankHint))
  {
    if fileHint.Some? { FileCharRead(fileHint.value); }
    if rankHint.Some? { RankCharRead(rankHint.value); }
  }

  lemma PieceBodyRead(kind: Kind, fileHint: Option<Coord>, rankHint: Option<Coord>, capture: bool,
                      dest: Square, suffix: Suffix, ep: bool)
    ensures ReadPieceBody(kind, HintText(fileHint, rankHint) + (if capture then "x" else "") +
                          SquareName(dest), suffix, ep)
            == Some(PieceMove(kind, fileHint, rankHint, capture, dest, suffix, ep))
  {
    var hints := HintText(fileHint, rankHint);
    var mid := hints + (if capture then "x" else "");
    var b := mid + SquareName(dest);
    assert b[|b| - 2..] == SquareName(dest) && b[..|b| - 2] == mid;
    SquareRead(dest);
    HintsRead(fileHint, rankHint);
    HintsEnd(fileHint, rankHint);
    assert (|mid| >= 1 && mid[|mid| - 1] == 'x') == capture;
    assert (if capture then mid[..|mid| - 1] else mid) == hints;
  }

  lemma HintsEnd(fileHint: Option<Coord>, rankHint: Option<Coord>)
    ensures var h := HintText(fileHint, rankHint); h != [] ==> h[|h| - 1] != 'x'
  {
    if rankHint.Some? { RankCharRead(rankHint.value); }
    if fileHint.Some? { FileCharRead(fileHint.value); }
  }

  lemma PawnBodyRead(from: Option<Coord>, dest: Square, promotion: Option<char>, suffix: Suffix,
                     ep: bool)
    ensures ReadPawnBody(Body(PawnMove(from, dest, promotion, suffix, ep)), suffix, ep)
            == Some(PawnMove(from, dest, promotion, suffix, ep))
  {
    var move := (if from.Some? then [FileChar(from.value), 'x'] else "") + SquareName(dest);
    var b := Body(PawnMove(from, dest, promotion, suffix, ep));
    SquareRead(dest);
    RankCharRead(dest.row);
    if promotion.Some? {
      assert b[..|b| - 2] == move;
    }
    if from.Some? {
      FileCharRead(from.value);
      assert move[2..] == SquareName(dest);
    }
  }

  lemma CastleRead(kingside: bool, suffix: Suffix)
    ensures ReadSan(Render(Castle(kingside, suffix))) == Some(Castle(kingside, suffix))
  {
    var s := Castle(kingside, suffix);
    assert Render(s) == Body(s) + SuffixText(suffix) + EnPassantText(false);
    SuffixesOf(Body(s), suffix, false);
  }

  lemma PawnRead(from: Option<Coord>, dest: Square, promotion: Option<char>, suffix: Suffix,
                 ep: bool)
    requires promotion.Some? ==> PromotionLetter(promotion.value)
    ensures ReadSan(Render(PawnMove(from, dest, promotion, suffix, ep)))
            == Some(PawnMove(from, dest, promotion, suffix, ep))
  {
    var s := PawnMove(from, dest, promotion, suffix, ep);
    var body := Body(s);
    RankCharRead(dest.row);
    SuffixesOf(body, suffix, ep);
    if from.Some? { FileCharRead(from.value); } else { FileCharRead(dest.col); }
    assert body != "O-O" && body != "O-O-O";
    assert KindOf(body[0]).None?;
    PawnBodyRead(from, dest, promotion, suffix, ep);
  }

  lemma PieceRead(kind: Kind, fileHint: Option<Coord>, rankHint: Option<Coord>, capture: bool,
                  dest: Square, suffix: Suffix, ep: bool)
    requires kind != Pawn
    ensures ReadSan(Render(PieceMove(kind, fileHint, rankHint, capture, dest, suffix, ep)))
            == Some(PieceMove(kind, fileHint, rankHint, capture, dest, suffix, ep))
  {
    var s := PieceMove(kind, fileHint, rankHint, capture, dest, suffix, ep);
    var rest := HintText(fileHint, rankHint) + (if capture then "x" else "") + SquareName(dest);
    var body := [KindLetter(kind)] + rest;
    assert Body(s) == body;
    assert body[|body| - 1] == RankChar(dest.row);
    RankCharRead(dest.row);
    SuffixesOf(body, suffix, ep);
    assert ReadSan(Render(s)) == ReadBody(body, suffix, ep);
    KindLetterRead(kind);
    assert body != "O-O" && body != "O-O-O";
    assert body[1..] == rest;
    PieceBodyRead(kind, fileHint, rankHint, capture, dest, suffix, ep);
  }

  lemma KindLetterRead(kind: Kind)
    requires kind != Pawn
    ensures KindOf(KindLetter(kind)) == Some(kind)
    ensures KindLetter(kind) != 'O'
  {
  }

  /** Reading back what Render wrote gives the same SAN value. */
  lemma ReadRender(s: San)
    requires WellFormed(s)
    ensures ReadSan(Render(s)) == Some(s)
  {
    match s
    case Castle(kingside, suffix) => CastleRead(kingside, suffix);
    case PawnMove(from, dest, promotion, suffix, ep) => PawnRead(from, dest, promotion, suffix, ep);
    case PieceMove(kind, fileHint, rankHint, capture, dest, suffix, ep) =>
      PieceRead(kind, fileHint, rankHint, capture, dest, suffix, ep);
  }

  /** The text the exporter writes for a move reads back as that move's notation: castling side,
      destination, capture, promotion, hints, check marker and en passant are all recoverable. */
  lemma NotationRead(m: MoveRecord, board: Board, reach: Reach)
    requires m.isPawnPromotion ==> PromotionLetter(m.promotionChoice)
    ensures ReadSan(StandardAlgebraicNotation(m, board, reach)) == Some(Notation(m, board, reach))
  {
    ReadRender(Notation(m, board, reach));
  }

  /** Two moves get the same text exactly when they get the same notation. */
  lemma NotationInjective(m1: MoveRecord, b1: Board, g1: Reach, m2: MoveRecord, b2: Board, g2: Reach)
    requires m1.isPawnPromotion ==> PromotionLetter(m1.promotionChoice)
    requires m2.isPawnPromotion ==> PromotionLetter(m2.promotionChoice)
    ensures StandardAlgebraicNotation(m1, b1, g1) == StandardAlgebraicNotation(m2, b2, g2)
            <==> Notation(m1, b1, g1) == Notation(m2, b2, g2)
  {
    NotationRead(m1, b1, g1);
    NotationRead(m2, b2, g2);
  }

  /** The hints tell the mover apart from the piece on (r, c). */
  predicate Separated(board: Board, m: MoveRecord, reach: Reach, r: Coord, c: Coord)
  {
    (FileHint(board, m, reach).Some? && c != m.start.col) ||
    (RankHint(board, m, reach).Some? && r != m.start.row)
  }

  /** No hint is written exactly when no other piece of the same colour and kind can reach the
      destination. */
  lemma NoHintNoRival(board: Board, m: MoveRecord, reach: Reach)
    ensures Disambiguation(board, m, reach) == "" <==>
            forall r: Coord, c: Coord :: !Rival(board, m, reach, r, c)
  {
    if exists r: Coord, c: Coord :: Rival(board, m, reach, r, c) {
      var r: Coord, c: Coord :| Rival(board, m, reach, r, c);
      if c != m.start.col {
        assert FileFlag(board, m, reach);
      } else {
        assert RankFlag(board, m, reach);
      }
    }
  }

  /** The rivals the hints leave unresolved are exactly those on the mover's own file, when the
      mover is not a rook and some other rival forced a file hint: the rank is then withheld. */
  lemma UnresolvedRivals(board: Board, m: MoveRecord, reach: Reach, r: Coord, c: Coord)
    requires Rival(board, m, reach, r, c)
    ensures !Separated(board, m, reach, r, c) <==>
            (m.kind != Rook && FileFlag(board, m, reach) && c == m.start.col)
  {
    if c == m.start.col {
      assert RankFlag(board, m, reach);
    } else {
      assert FileFlag(board, m, reach);
    }
  }

  /** For a rook the hints always tell the mover apart from every rival. */
  lemma RookHintsSeparate(board: Board, m: MoveRecord, reach: Reach)
    requires m.kind == Rook
    ensures forall r: Coord, c: Coord :: Rival(board, m, reach, r, c) ==> Separated(board, m, reach, r, c)
  {
    forall r: Coord, c: Coord | Rival(board, m, reach, r, c)
      ensures Separated(board, m, reach, r, c)
    {
      UnresolvedRivals(board, m, reach, r, c);
    }
  }

  /** White knights on c3, c7 and e3 that can all reach d5: the move from c3 is written "Ncd5",
      which the knight on c7 shares. */
  lemma ThreeKnights()
    ensures StandardAlgebraicNotation(KnightMove(), KnightsBoard(), KnightsReach()) == "Ncd5"
    ensures Rival(KnightsBoard(), KnightMove(), KnightsReach(), 1, 2)
    ensures !Separated(KnightsBoard(), KnightMove(), KnightsReach(), 1, 2)
  {
    var board, m, reach := KnightsBoard(), KnightMove(), KnightsReach();
    assert Rival(board, m, reach, 5, 4);
    assert FileFlag(board, m, reach);
    assert Rival(board, m, reach, 1, 2);
    assert RankFlag(board, m, reach);
    assert Disambiguation(board, m, reach) == "c";
  }

  function KnightsBoard(): Board
  {
    seq(8, r => seq(8, c => if (r == 1 && c == 2) || (r == 5 && (c == 2 || c == 4))
                            then Piece(White, Knight) else Empty))
  }

  function KnightsReach(): Reach
  {
    seq(8, r => seq(8, c => (r == 1 && c == 2) || (r == 5 && (c == 2 || c == 4))))
  }

  /** Nc3-d5: row 5 column 2 to row 3 column 3. */
  function KnightMove(): MoveRecord
  {
    MoveRecord(Square(5, 2), Square(3, 3), White, Knight, false, false, 'Q', false, false, false, false)
  }
}
