/** Shared vocabulary of the chess front end: colours, piece kinds, board cells and squares.
    The board is the engine's 8x8 grid; row 0 is rank 8 (Black's back rank) and column 0 is file a. */
module ChessTypes {

  datatype Option<T> = None | Some(value: T)

  datatype Color = White | Black

  datatype Kind = King | Queen | Rook | Bishop | Knight | Pawn

  /** A board cell: empty ("--") or a piece such as "wN". */
  datatype Cell = Empty | Piece(color: Color, kind: Kind)

  /** A row or column index of the board. */
  type Coord = i: int | 0 <= i < 8

  datatype Square = Square(row: Coord, col: Coord)

  const EmptyBoard: seq<seq<Cell>> := seq(8, _ => seq(8, _ => Empty))

  /** The engine's board: always eight rows of eight cells. */
  type Board = b: seq<seq<Cell>> | |b| == 8 && forall r :: 0 <= r < 8 ==> |b[r]| == 8
    witness EmptyBoard

  function Opponent(c: Color): (o: Color)
    ensures o != c
  {
    if c == White then Black else White
  }

  /** The piece letter the engine uses in its piece codes ("K", "Q", "R", "B", "N", and "p" for pawns). */
  function KindLetter(k: Kind): char
  {
    match k
    case King => 'K'
    case Queen => 'Q'
    case Rook => 'R'
    case Bishop => 'B'
    case Knight => 'N'
    case Pawn => 'p'
  }

  /** The same sequence read back to front (Python's `s[::-1]`). */
  function Reversed<T>(s: seq<T>): (r: seq<T>)
    ensures |r| == |s|
    ensures forall i :: 0 <= i < |s| ==> r[i] == s[|s| - 1 - i]
  {
    seq(|s|, i requires 0 <= i < |s| => s[|s| - 1 - i])
  }

  function Max(a: int, b: int): int { if a >= b then a else b }

  function Min(a: int, b: int): int { if a <= b then a else b }
}
