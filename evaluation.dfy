/** Static evaluation of src/ChessAI.py: material plus positional tables.
    All scores are in hundredths of a pawn, so that every table entry is an integer. */
module Evaluation {
  import opened ChessTypes

  /** One pawn is worth `Scale` score units. */
  const Scale: int := 100
  /** CHECKMATE = 1000 pawns. */
  const Checkmate: int := 1000 * Scale
  /** STALEMATE = 0. */
  const Stalemate: int := 0

  /** piece_score, scaled. */
  function PieceValue(k: Kind): (v: int)
    ensures 0 <= v <= 9 * Scale
    ensures v == 0 <==> k == King
  {
    match k
    case King => 0
    case Queen => 900
    case Rook => 500
    case Bishop => 300
    case Knight => 300
    case Pawn => 100
  }

  const KnightTable: seq<seq<int>> := [
    [ 0, 10, 20, 20, 20, 20, 10,  0],
    [10, 30, 50, 50, 50, 50, 30, 10],
    [20, 50, 60, 65, 65, 60, 50, 20],
    [20, 55, 65, 70, 70, 65, 55, 20],
    [20, 50, 65, 70, 70, 65, 50, 20],
    [20, 55, 60, 65, 65, 60, 55, 20],
    [10, 30, 50, 55, 55, 50, 30, 10],
    [ 0, 10, 20, 20, 20, 20, 10,  0]]

  const BishopTable: seq<seq<int>> := [
    [ 0, 20, 20, 20, 20, 20, 20,  0],
    [20, 40, 40, 40, 40, 40, 40, 20],
    [20, 40, 50, 60, 60, 50, 40, 20],
    [20, 50, 50, 60, 60, 50, 50, 20],
    [20, 40, 60, 60, 60, 60, 40, 20],
    [20, 60, 60, 60, 60, 60, 60, 20],
    [20, 50, 40, 40, 40, 40, 50, 20],
    [ 0, 20, 20, 20, 20, 20, 20,  0]]

  const RookTable: seq<seq<int>> := [
    [25, 25, 25, 25, 25, 25, 25, 25],
    [50, 75, 75, 75, 75, 75, 75, 50],
    [ 0, 25, 25, 25, 25, 25, 25,  0],
    [ 0, 25, 25, 25, 25, 25, 25,  0],
    [ 0, 25, 25, 25, 25, 25, 25,  0],
    [ 0, 25, 25, 25, 25, 25, 25,  0],
    [ 0, 25, 25, 25, 25, 25, 25,  0],
    [25, 25, 25, 50, 50, 25, 25, 25]]

  const QueenTable: seq<seq<int>> := [
    [ 0, 20, 20, 30, 30, 20, 20,  0],
    [20, 40, 40, 40, 40, 40, 40, 20],
    [20, 40, 50, 50, 50, 50, 40, 20],
    [30, 40, 50, 50, 50, 50, 40, 30],
    [40, 40, 50, 50, 50, 50, 40, 30],
    [20, 50, 50, 50, 50, 50, 40, 20],
    [20, 40, 50, 40, 40, 40, 40, 20],
    [ 0, 20, 20, 30, 30, 20, 20,  0]]

  const PawnTable: seq<seq<int>> := [
    [80, 80, 80, 80, 80, 80, 80, 80],
    [70, 70, 70, 70, 70, 70, 70, 70],
    [30, 30, 40, 50, 50, 40, 30, 30],
    [25, 25, 30, 45, 45, 30, 25, 25],
    [20, 20, 20, 40, 40, 20, 20, 20],
    [25, 15, 10, 20, 20, 10, 15, 25],
    [25, 30, 30,  0,  0, 30, 30, 25],
    [20, 20, 20, 20, 20, 20, 20, 20]]

  /** An 8x8 table of integers. */
  predicate IsTable(t: seq<seq<int>>)
  {
    |t| == 8 && forall r :: 0 <= r < 8 ==> |t[r]| == 8
  }

  /** Every entry of `t` lies in [lo, hi]. */
  predicate EntriesWithin(t: seq<seq<int>>, lo: int, hi: int)
    requires IsTable(t)
  {
    forall r, c :: 0 <= r < 8 && 0 <= c < 8 ==> lo <= t[r][c] <= hi
  }

  /** White's positional table of a kind other than the king. */
  function WhiteTable(k: Kind): (t: seq<seq<int>>)
    requires k != King
    ensures IsTable(t)
  {
    match k
    case Queen => QueenTable
    case Rook => RookTable
    case Bishop => BishopTable
    case Knight => KnightTable
    case Pawn => PawnTable
  }

  /** piece_position_scores: Black's table is White's with its rows reversed. */
  function PositionTable(c: Color, k: Kind): (t: seq<seq<int>>)
    requires k != King
    ensures IsTable(t)
  {
    if c == White then WhiteTable(k) else Reversed(WhiteTable(k))
  }

  /** What one cell adds to the score: material plus position for White, minus that for Black.
      Kings have no positional term. */
  function CellScore(cell: Cell, row: Coord, col: Coord): int
  {
    match cell
    case Empty => 0
    case Piece(c, k) =>
      var position := if k == King then 0 else PositionTable(c, k)[row][col];
      if c == White then PieceValue(k) + position else -(PieceValue(k) + position)
  }

  function SumOf(s: seq<int>): int
  {
    if s == [] then 0 else SumOf(s[..|s| - 1]) + s[|s| - 1]
  }

  /** The contributions of the cells of one row of the board, column by column. */
  function CellScores(cells: seq<Cell>, row: Coord): (s: seq<int>)
    requires |cells| <= 8
    ensures |s| == |cells|
  {
    seq(|cells|, c requires 0 <= c < |cells| => CellScore(cells[c], row, c))
  }

  /** The total of each row of the board. */
  function RowScores(b: Board): (s: seq<int>)
    ensures |s| == 8
  {
    seq(8, r requires 0 <= r < 8 => SumOf(CellScores(b[r], r)))
  }

  /** The non-terminal score: the sum of every cell's contribution. */
  function MaterialScore(b: Board): int
  {
    SumOf(RowScores(b))
  }

  /** The engine state scoreBoard reads. */
  datatype Position = Position(board: Board, whiteToMove: bool, checkmate: bool, stalemate: bool)

  /** scoreBoard: positive is good for White. */
  function StaticScore(p: Position): int
  {
    if p.checkmate then (if p.whiteToMove then -Checkmate else Checkmate)
    else if p.stalemate then Stalemate
    else MaterialScore(p.board)
  }

  lemma SumOfSnoc(s: seq<int>, x: int)
    ensures SumOf(s + [x]) == SumOf(s) + x
  {
    assert (s + [x])[..|s|] == s;
  }

  /** One more cell of a row adds that cell's contribution. */
  lemma CellStep(cells: seq<Cell>, row: Coord, col: nat)
    requires col < |cells| <= 8
    ensures SumOf(CellScores(cells, row)[..col + 1]) ==
            SumOf(CellScores(cells, row)[..col]) + CellScore(cells[col], row, col)
  {
    assert CellScores(cells, row)[..col + 1] == CellScores(cells, row)[..col] + [CellScore(cells[col], row, col)];
    SumOfSnoc(CellScores(cells, row)[..col], CellScore(cells[col], row, col));
  }

  /** One more row of the board adds that row's total. */
  lemma RowStep(b: Board, row: Coord)
    ensures SumOf(RowScores(b)[..row + 1]) == SumOf(RowScores(b)[..row]) + SumOf(CellScores(b[row], row))
  {
    assert RowScores(b)[..row + 1] == RowScores(b)[..row] + [SumOf(CellScores(b[row], row))];
    SumOfSnoc(RowScores(b)[..row], SumOf(CellScores(b[row], row)));
  }

  /** scoreBoard's nested loop over the rows and columns of the board. */
  method ScoreBoard(p: Position) returns (score: int)
    ensures score == StaticScore(p)
  {
    if p.checkmate {
      if p.whiteToMove {
        return -Checkmate;
      } else {
        return Checkmate;
      }
    } else if p.stalemate {
      return Stalemate;
    }
    var board := p.board;
    score := 0;
    var row := 0;
    while row < |board|
      invariant 0 <= row <= 8
      invariant score == SumOf(RowScores(board)[..row])
    {
      var col := 0;
      while col < |board[row]|
        invariant 0 <= col <= 8
        invariant score == SumOf(RowScores(board)[..row]) + SumOf(CellScores(board[row], row)[..col])
      {
        var piece := board[row][col];
        ghost var before := score;
        if piece != Empty {
          var positionScore := 0;
          if piece.kind != King {
            positionScore := PositionTable(piece.color, piece.kind)[row][col];
          }
          if piece.color == White {
            score := score + (PieceValue(piece.kind) + positionScore);
          }
          if piece.color == Black {
            score := score - (PieceValue(piece.kind) + positionScore);
          }
        }
        assert score == before + CellScore(piece, row, col);
        CellStep(board[row], row, col);
        col := col + 1;
      }
      assert CellScores(board[row], row)[..col] == CellScores(board[row], row);
      RowStep(board, row);
      row := row + 1;
    }
    assert RowScores(board)[..row] == RowScores(board);
  }

  // ---------------------------------------------------------------------------
  // Properties of the evaluator

  /** The largest value any single cell can contribute (a queen: 900 plus at most 80). */
  const CellBound: int := 980
  /** The largest magnitude a non-terminal score can reach: 64 cells at CellBound. */
  const MaterialBound: int := 64 * CellBound

  lemma TablesWithin(k: Kind)
    requires k != King
    ensures EntriesWithin(WhiteTable(k), 0, 80)
  {
    var t := WhiteTable(k);
    forall r, c | 0 <= r < 8 && 0 <= c < 8
      ensures 0 <= t[r][c] <= 80
    {
      var row := t[r];
      assert forall j :: 0 <= j < 8 ==> 0 <= row[j] <= 80;
    }
  }

  lemma CellScoreBounded(cell: Cell, row: Coord, col: Coord)
    ensures -CellBound <= CellScore(cell, row, col) <= CellBound
  {
    if cell.Piece? && cell.kind != King {
      TablesWithin(cell.kind);
      assert 0 <= WhiteTable(cell.kind)[7 - row][col] <= 80;
    }
  }

  lemma {:induction false} SumOfBounded(s: seq<int>, bound: int)
    requires forall i :: 0 <= i < |s| ==> -bound <= s[i] <= bound
    ensures -|s| * bound <= SumOf(s) <= |s| * bound
  {
    if s != [] {
      SumOfBounded(s[..|s| - 1], bound);
    }
  }

  /** Every non-terminal score of an 8x8 board lies strictly inside (-CHECKMATE, CHECKMATE). */
  lemma MaterialScoreBounded(b: Board)
    ensures -MaterialBound <= MaterialScore(b) <= MaterialBound
    ensures -Checkmate < MaterialScore(b) < Checkmate
  {
    var rows := RowScores(b);
    forall r | 0 <= r < 8
      ensures -8 * CellBound <= rows[r] <= 8 * CellBound
    {
      var cells := CellScores(b[r], r);
      forall c | 0 <= c < 8
        ensures -CellBound <= cells[c] <= CellBound
      {
        CellScoreBounded(b[r][c], r, c);
      }
      SumOfBounded(cells, CellBound);
    }
    SumOfBounded(rows, 8 * CellBound);
  }

  /** scoreBoard never leaves [-CHECKMATE, CHECKMATE]. */
  lemma StaticScoreBounded(p: Position)
    ensures -Checkmate <= StaticScore(p) <= Checkmate
  {
    MaterialScoreBounded(p.board);
  }

  /** A checkmate is scored -1000 when White is to move and +1000 when Black is, a stalemate 0,
      and a mate is worth strictly more (to the side that gave it) than any non-terminal position. */
  lemma TerminalScores(p: Position, q: Position)
    requires !q.checkmate && !q.stalemate
    ensures p.checkmate && p.whiteToMove ==> StaticScore(p) == -1000 * Scale < StaticScore(q)
    ensures p.checkmate && !p.whiteToMove ==> StaticScore(p) == 1000 * Scale > StaticScore(q)
    ensures !p.checkmate && p.stalemate ==> StaticScore(p) == 0
  {
    MaterialScoreBounded(q.board);
  }

  lemma {:induction false} SumOfZeros(s: seq<int>)
    requires forall i :: 0 <= i < |s| ==> s[i] == 0
    ensures SumOf(s) == 0
  {
    if s != [] {
      SumOfZeros(s[..|s| - 1]);
    }
  }

  /** No cell holds anything but a king. */
  predicate OnlyKings(b: Board)
  {
    forall r, c :: 0 <= r < 8 && 0 <= c < 8 ==> b[r][c] == Empty || b[r][c].kind == King
  }

  /** Kings contribute nothing (material 0, no positional term), so a board of kings alone scores 0. */
  lemma OnlyKingsScoreZero(b: Board)
    requires OnlyKings(b)
    ensures MaterialScore(b) == 0
    ensures forall c: Color, r: Coord, col: Coord :: CellScore(Piece(c, King), r, col) == 0
  {
    var rows := RowScores(b);
    forall r | 0 <= r < 8
      ensures rows[r] == 0
    {
      var cells := CellScores(b[r], r);
      assert forall c :: 0 <= c < 8 ==> cells[c] == CellScore(b[r][c], r, c) == 0;
      SumOfZeros(cells);
    }
    SumOfZeros(rows);
  }

  function SwapColor(cell: Cell): Cell
  {
    match cell
    case Empty => Empty
    case Piece(c, k) => Piece(Opponent(c), k)
  }

  /** The board seen from the other side: ranks mirrored and every piece's colour swapped. */
  function MirrorBoard(b: Board): (m: Board)
    ensures forall r, c :: 0 <= r < 8 && 0 <= c < 8 ==> m[r][c] == SwapColor(b[7 - r][c])
  {
    seq(8, r requires 0 <= r < 8 => seq(8, c requires 0 <= c < 8 => SwapColor(b[7 - r][c])))
  }

  function Negated(s: seq<int>): (n: seq<int>)
    ensures |n| == |s| && forall i :: 0 <= i < |s| ==> n[i] == -s[i]
  {
    seq(|s|, i requires 0 <= i < |s| => -s[i])
  }

  lemma {:induction false} SumOfNegated(s: seq<int>)
    ensures SumOf(Negated(s)) == -SumOf(s)
  {
    if s != [] {
      assert Negated(s)[..|s| - 1] == Negated(s[..|s| - 1]);
      SumOfNegated(s[..|s| - 1]);
    }
  }

  lemma {:induction false} SumOfPrepend(x: int, t: seq<int>)
    ensures SumOf([x] + t) == x + SumOf(t)
  {
    if t != [] {
      assert ([x] + t)[..|t|] == [x] + t[..|t| - 1];
      SumOfPrepend(x, t[..|t| - 1]);
    }
  }

  lemma {:induction false} SumOfReversed(s: seq<int>)
    ensures SumOf(Reversed(s)) == SumOf(s)
  {
    if s != [] {
      var init := s[..|s| - 1];
      assert Reversed(s) == [s[|s| - 1]] + Reversed(init);
      SumOfPrepend(s[|s| - 1], Reversed(init));
      SumOfReversed(init);
    }
  }

  /** Swapping a piece's colour and mirroring its rank negates what it contributes:
      Black's tables are White's read row-reversed. */
  lemma MirrorCell(cell: Cell, row: Coord, col: Coord)
    ensures CellScore(SwapColor(cell), 7 - row, col) == -CellScore(cell, row, col)
  {
  }

  /** Mirroring the board by rank and swapping colours negates the non-terminal score. */
  lemma MirrorNegatesMaterial(b: Board)
    ensures MaterialScore(MirrorBoard(b)) == -MaterialScore(b)
  {
    var m := MirrorBoard(b);
    forall r | 0 <= r < 8
      ensures RowScores(m)[r] == Negated(Reversed(RowScores(b)))[r]
    {
      var cells := CellScores(m[r], r);
      var orig := CellScores(b[7 - r], 7 - r);
      forall c | 0 <= c < 8
        ensures cells[c] == Negated(orig)[c]
      {
        MirrorCell(b[7 - r][c], 7 - r, c);
      }
      assert cells == Negated(orig);
      SumOfNegated(orig);
    }
    assert RowScores(m) == Negated(Reversed(RowScores(b)));
    SumOfNegated(Reversed(RowScores(b)));
    SumOfReversed(RowScores(b));
  }

  function MirrorPosition(p: Position): Position
  {
    Position(MirrorBoard(p.board), !p.whiteToMove, p.checkmate, p.stalemate)
  }

  /** The evaluator is colour-symmetric: the mirrored position with the other side to move
      scores exactly the negation, terminal positions included. */
  lemma MirrorNegatesScore(p: Position)
    ensures StaticScore(MirrorPosition(p)) == -StaticScore(p)
  {
    MirrorNegatesMaterial(p.board);
  }
}
