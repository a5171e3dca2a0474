// The PGN text the exporter builds from the move log (generate_pgn_string): seven header tags, a
// blank line, then one line per move pair "N. white black", with the result appended to the last
// line when the game has one.
module PgnExport {
  import opened ChessTypes
  import opened SanNotation

  // ---------------------------------------------------------------------------
  // Decimal move numbers.

  function DigitChar(d: nat): char
    requires d < 10
  {
    ('0' as int + d) as char
  }

  /** The decimal text of n, as an f-string writes an int. */
  function NatToString(n: nat): (s: string)
    ensures s != []
    ensures forall i :: 0 <= i < |s| ==> '0' <= s[i] <= '9'
  {
    if n < 10 then [DigitChar(n)] else NatToString(n / 10) + [DigitChar(n % 10)]
  }

  /** The number a string of decimal digits denotes. */
  function DigitsValue(s: string): nat
    requires forall i :: 0 <= i < |s| ==> '0' <= s[i] <= '9'
  {
    if s == [] then 0 else 10 * DigitsValue(s[..|s| - 1]) + (s[|s| - 1] - '0') as nat
  }

  lemma DigitRead(d: nat)
    requires d < 10
    ensures '0' <= DigitChar(d) <= '9' && (DigitChar(d) - '0') as nat == d
  {
  }

  /** Move numbers read back as the number written. */
  lemma {:induction false} NatToStringRead(n: nat)
    ensures DigitsValue(NatToString(n)) == n
  {
    var s := NatToString(n);
    DigitRead(n % 10);
    if n >= 10 {
      assert s[..|s| - 1] == NatToString(n / 10);
      NatToStringRead(n / 10);
    }
  }

  // ---------------------------------------------------------------------------
  // Lines and their joining.

  /** "\n".join(lines). */
  function Join(lines: seq<string>): string
  {
    if |lines| == 0 then ""
    else if |lines| == 1 then lines[0]
    else lines[0] + "\n" + Join(lines[1..])
  }

  /** The lines of a text, cut at every newline (Python's s.split("\n")). */
  function Split(s: string): (r: seq<string>)
    ensures |r| >= 1
  {
    if s == [] then [""]
    else if s[0] == '\n' then [""] + Split(s[1..])
    else
      var t := Split(s[1..]);
      [[s[0]] + t[0]] + t[1..]
  }

  predicate NoNewline(s: string)
  {
    forall i :: 0 <= i < |s| ==> s[i] != '\n'
  }

  lemma {:induction false} SplitSingle(s: string)
    requires NoNewline(s)
    ensures Split(s) == [s]
  {
    if s != [] {
      assert NoNewline(s[1..]);
      SplitSingle(s[1..]);
      assert [s[0]] + s[1..] == s;
    }
  }

  /** Cutting at a newline splits the lines of the two sides apart. */
  lemma {:induction false} SplitAt(x: string, y: string)
    ensures Split(x + "\n" + y) == Split(x) + Split(y)
  {
    var s := x + "\n" + y;
    if x == [] {
      assert s == "\n" + y && s[1..] == y;
    } else {
      assert s[0] == x[0] && s[1..] == x[1..] + "\n" + y;
      SplitAt(x[1..], y);
      var t := Split(x[1..]);
      var head := if x[0] == '\n' then "" else [x[0]] + t[0];
      var tail := if x[0] == '\n' then t else t[1..];
      assert Split(x) == [head] + tail;
      assert Split(s) == [head] + (tail + Split(y));
      AppendAssoc([head], tail, Split(y));
    }
  }

  /** Joining newline-free lines and splitting the text gives the lines back. */
  lemma {:induction false} SplitJoin(lines: seq<string>)
    requires lines != []
    requires forall i :: 0 <= i < |lines| ==> NoNewline(lines[i])
    ensures Split(Join(lines)) == lines
  {
    SplitSingle(lines[0]);
    if |lines| > 1 {
      SplitAt(lines[0], Join(lines[1..]));
      SplitJoin(lines[1..]);
    }
  }

  // ---------------------------------------------------------------------------
  // The PGN text.

  function Tag(name: string, value: string): string
  {
    "[" + name + " \"" + value + "\"]"
  }

  /** The seven header tags; Round is always "1". The date is the export date as "%Y.%m.%d". */
  function Header(event: string, site: string, date: string, white: string, black: string,
                  result: string): (h: seq<string>)
    ensures |h| == 7
  {
    [Tag("Event", event), Tag("Site", site), Tag("Date", date), Tag("Round", "1"),
     Tag("White", white), Tag("Black", black), Tag("Result", result)]
  }

  /** A line opened by White's move: the move number, a dot, a space and the move. */
  function Opening(n: nat, white: string): string
  {
    NatToString(n) + ". " + white
  }

  /** The open line closed by Black's move. */
  function Closing(current: string, black: string): string
  {
    current + " " + black
  }

  /** The move lines from move number n on: a pair line "n. white black" for every two moves, and
      a last line with White's move only when one is left over. */
  function Lines(sans: seq<string>, n: nat): seq<string>
    decreases |sans|, 1
  {
    if sans == [] then [] else Pending(Opening(n, sans[0]), sans[1..], n)
  }

  /** The lines still to come when the line of move n is open and waiting for Black's move. */
  function Pending(current: string, rest: seq<string>, n: nat): seq<string>
    decreases |rest|, 0
  {
    if rest == [] then [current] else [Closing(current, rest[0])] + Lines(rest[1..], n + 1)
  }

  function MoveLines(sans: seq<string>): (lines: seq<string>)
    ensures |lines| == (|sans| + 1) / 2
  {
    LinesAt(sans, 1);
    Lines(sans, 1)
  }

  /** The k-th line when the first line has move number n, written directly. */
  function PairLine(sans: seq<string>, k: nat, n: nat): string
    requires 2 * k < |sans|
  {
    if 2 * k + 1 < |sans| then Closing(Opening(n + k, sans[2 * k]), sans[2 * k + 1])
    else Opening(n + k, sans[2 * k])
  }

  /** There is one line per pair of moves, and line k is move number n + k with moves 2k and,
      when it exists, 2k + 1. */
  lemma {:induction false} LinesAt(sans: seq<string>, n: nat)
    ensures |Lines(sans, n)| == (|sans| + 1) / 2
    ensures forall k :: 0 <= k < |Lines(sans, n)| ==> Lines(sans, n)[k] == PairLine(sans, k, n)
    decreases |sans|
  {
    if sans != [] {
      var rest := sans[1..];
      if rest != [] {
        var tail := rest[1..];
        assert tail == sans[2..];
        LinesAt(tail, n + 1);
        var lines := Lines(sans, n);
        assert lines == [Closing(Opening(n, sans[0]), sans[1])] + Lines(tail, n + 1);
        forall k | 0 <= k < |lines| ensures lines[k] == PairLine(sans, k, n) {
          if k > 0 {
            assert lines[k] == PairLine(tail, k - 1, n + 1);
            PairLineShift(sans, k, n);
          }
        }
      }
    }
  }

  /** Line k of the moves from number n is line k - 1 of the moves after the first pair. */
  lemma PairLineShift(sans: seq<string>, k: nat, n: nat)
    requires 0 < k && 2 * k < |sans|
    ensures PairLine(sans, k, n) == PairLine(sans[2..], k - 1, n + 1)
  {
    var tail := sans[2..];
    assert tail[2 * (k - 1)] == sans[2 * k];
    assert 2 * (k - 1) + 1 < |tail| ==> tail[2 * (k - 1) + 1] == sans[2 * k + 1];
  }

  /** A decided result goes at the end of the last line, or on a line of its own when no move was
      made; "*" adds nothing. */
  function WithResult(lines: seq<string>, result: string): (placed: seq<string>)
    ensures |placed| == if result == "*" then |lines| else Max(1, |lines|)
  {
    if result == "*" then lines
    else if lines != [] then lines[..|lines| - 1] + [lines[|lines| - 1] + " " + result]
    else [result]
  }

  function PgnString(event: string, site: string, date: string, white: string, black: string,
                     result: string, sans: seq<string>): string
  {
    Join(Header(event, site, date, white, black, result)) + "\n\n" +
    Join(WithResult(MoveLines(sans), result))
  }

  /** The notation of every logged move, each against the board being exported and the reach of
      the pieces on it towards that move's destination. */
  function Sans(moves: seq<MoveRecord>, board: Board, reaches: seq<Reach>): (sans: seq<string>)
    requires |reaches| == |moves|
    ensures |sans| == |moves|
  {
    if moves == [] then []
    else [StandardAlgebraicNotation(moves[0], board, reaches[0])] + Sans(moves[1..], board, reaches[1..])
  }

  lemma {:induction false} SansAt(moves: seq<MoveRecord>, board: Board, reaches: seq<Reach>, i: nat)
    requires |reaches| == |moves| && i < |moves|
    ensures Sans(moves, board, reaches)[i] == StandardAlgebraicNotation(moves[i], board, reaches[i])
  {
    if i > 0 {
      SansAt(moves[1..], board, reaches[1..], i - 1);
    }
  }

  lemma LinesStep(rest: seq<string>, n: nat)
    requires rest != []
    ensures Lines(rest, n) == Pending(NatToString(n) + ". " + rest[0], rest[1..], n)
  {
  }

  lemma PendingStep(current: string, rest: seq<string>, n: nat)
    requires rest != []
    ensures Pending(current, rest, n) == [current + " " + rest[0]] + Lines(rest[1..], n + 1)
  {
  }

  lemma AppendAssoc(a: seq<string>, b: seq<string>, c: seq<string>)
    ensures a + (b + c) == a + b + c
  {
  }

  /** sans holds the notation of every logged move. */
  predicate Notated(moves: seq<MoveRecord>, board: Board, reaches: seq<Reach>, sans: seq<string>)
    requires |reaches| == |moves|
  {
    |sans| == |moves| &&
    forall j {:trigger StandardAlgebraicNotation(moves[j], board, reaches[j])} :: 0 <= j < |moves| ==>
      sans[j] == StandardAlgebraicNotation(moves[j], board, reaches[j])
  }

  lemma SansNotated(moves: seq<MoveRecord>, board: Board, reaches: seq<Reach>)
    requires |reaches| == |moves|
    ensures Notated(moves, board, reaches, Sans(moves, board, reaches))
  {
    forall j | 0 <= j < |moves|
      ensures Sans(moves, board, reaches)[j] == StandardAlgebraicNotation(moves[j], board, reaches[j])
    {
      SansAt(moves, board, reaches, j);
    }
  }

  /** The notation of the i-th logged move (_get_standard_algebraic_notation(move, i)). */
  method MoveNotation(moves: seq<MoveRecord>, board: Board, reaches: seq<Reach>, i: nat,
                      ghost sans: seq<string>) returns (notation: string)
    requires |reaches| == |moves| && i < |moves| && Notated(moves, board, reaches, sans)
    ensures notation == sans[i]
  {
    notation := GetStandardAlgebraicNotation(moves[i], board, reaches[i]);
  }

  /** generate_pgn_string: the seven header tags, the move lines and the result. */
  method GeneratePgnString(moves: seq<MoveRecord>, board: Board, reaches: seq<Reach>,
                           white: string, black: string, event: string, site: string,
                           result: string, date: string) returns (pgn: string)
    requires |reaches| == |moves|
    ensures pgn == PgnString(event, site, date, white, black, result, Sans(moves, board, reaches))
  {
    var header := Header(event, site, date, white, black, result);
    SansNotated(moves, board, reaches);
    var moveLines := CollectMoveLines(moves, board, reaches, Sans(moves, board, reaches));
    pgn := AppendResult(header, moveLines, result);
  }

  /** The loop of generate_pgn_string: a pair line is opened on White's moves and closed on
      Black's, and a line left open at the end is kept. */
  method CollectMoveLines(moves: seq<MoveRecord>, board: Board, reaches: seq<Reach>,
                          ghost sans: seq<string>) returns (moveLines: seq<string>)
    requires |reaches| == |moves| && Notated(moves, board, reaches, sans)
    ensures moveLines == MoveLines(sans)
  {
    moveLines := [];
    var currentMovePair := "";
    ghost var pairs := 0;
    var i := 0;
    while i < |moves|
      invariant 0 <= i <= |moves|
      invariant i % 2 == 0 ==> i == 2 * pairs && currentMovePair == "" &&
                               moveLines + Lines(sans[i..], pairs + 1) == MoveLines(sans)
      invariant i % 2 == 1 ==> i == 2 * pairs + 1 && currentMovePair != "" &&
                               moveLines + Pending(currentMovePair, sans[i..], pairs + 1) == MoveLines(sans)
    {
      var algebraicNotation := MoveNotation(moves, board, reaches, i, sans);
      ghost var rest := sans[i..];
      assert rest[0] == algebraicNotation && rest[1..] == sans[i + 1..];
      if i % 2 == 0 {
        var moveNumber := i / 2 + 1;
        currentMovePair := NatToString(moveNumber) + ". " + algebraicNotation;
        LinesStep(rest, pairs + 1);
      } else {
        ghost var openLine := currentMovePair;
        currentMovePair := currentMovePair + " " + algebraicNotation;
        PendingStep(openLine, rest, pairs + 1);
        AppendAssoc(moveLines, [currentMovePair], Lines(sans[i + 1..], pairs + 2));
        moveLines := moveLines + [currentMovePair];
        currentMovePair := "";
        pairs := pairs + 1;
      }
      i := i + 1;
    }
    assert sans[i..] == [];
    if currentMovePair != "" {
      moveLines := moveLines + [currentMovePair];
    }
  }

  /** The end of generate_pgn_string: the result goes on the last line (or a line of its own), and
      the header and the moves are joined with a blank line between them. */
  method AppendResult(header: seq<string>, lines: seq<string>, result: string) returns (pgn: string)
    ensures pgn == Join(header) + "\n\n" + Join(WithResult(lines, result))
  {
    var moveLines := lines;
    if result != "*" {
      if moveLines != [] {
        moveLines := moveLines[..|moveLines| - 1] + [moveLines[|moveLines| - 1] + " " + result];
      } else {
        moveLines := moveLines + [result];
      }
    }
    pgn := Join(header) + "\n\n" + Join(moveLines);
  }

  // ---------------------------------------------------------------------------
  // Laws of the PGN text.

  /** The result is placed as generate_pgn_string promises: appended to the last move line, or the
      only line when there are no moves; every other line is left alone. */
  lemma ResultPlacement(lines: seq<string>, result: string)
    ensures result == "*" ==> WithResult(lines, result) == lines
    ensures result != "*" && lines != [] ==>
      |WithResult(lines, result)| == |lines| &&
      WithResult(lines, result)[..|lines| - 1] == lines[..|lines| - 1] &&
      WithResult(lines, result)[|lines| - 1] == lines[|lines| - 1] + " " + result
    ensures result != "*" && lines == [] ==> WithResult(lines, result) == [result]
  {
  }

  lemma NoNewlineConcat(a: string, b: string)
    requires NoNewline(a) && NoNewline(b)
    ensures NoNewline(a + b)
  {
  }

  lemma SquareNoNewline(sq: Square)
    ensures NoNewline(SquareName(sq))
  {
    FileCharRead(sq.col);
    RankCharRead(sq.row);
  }

  lemma HintNoNewline(fileHint: Option<Coord>, rankHint: Option<Coord>)
    ensures NoNewline(HintText(fileHint, rankHint))
  {
    if fileHint.Some? { FileCharRead(fileHint.value); }
    if rankHint.Some? { RankCharRead(rankHint.value); }
  }

  /** A rendered move never contains a newline. */
  lemma RenderNoNewline(s: San)
    requires WellFormed(s)
    ensures NoNewline(Render(s))
  {
    var body := Body(s);
    match s
    case Castle(_, _) =>
    case PawnMove(from, dest, promotion, _, _) =>
      var lead := if from.Some? then [FileChar(from.value), 'x'] else "";
      if from.Some? { FileCharRead(from.value); }
      SquareNoNewline(dest);
      NoNewlineConcat(lead, SquareName(dest));
      NoNewlineConcat(lead + SquareName(dest), if promotion.Some? then ['=', promotion.value] else "");
    case PieceMove(kind, fileHint, rankHint, capture, dest, _, _) =>
      HintNoNewline(fileHint, rankHint);
      SquareNoNewline(dest);
      var lead := [KindLetter(kind)] + HintText(fileHint, rankHint);
      NoNewlineConcat([KindLetter(kind)], HintText(fileHint, rankHint));
      NoNewlineConcat(lead, if capture then "x" else "");
      NoNewlineConcat(lead + (if capture then "x" else ""), SquareName(dest));
    assert NoNewline(body);
    NoNewlineConcat(body, SuffixText(s.suffix));
    NoNewlineConcat(body + SuffixText(s.suffix), if s.Castle? then "" else EnPassantText(s.enPassant));
  }

  /** The move lines hold no newline when the moves' notations hold none. */
  lemma MoveLinesNoNewline(sans: seq<string>, result: string)
    requires forall i :: 0 <= i < |sans| ==> NoNewline(sans[i])
    requires NoNewline(result)
    ensures forall k :: 0 <= k < |WithResult(MoveLines(sans), result)| ==>
              NoNewline(WithResult(MoveLines(sans), result)[k])
  {
    var lines := MoveLines(sans);
    LinesAt(sans, 1);
    forall k | 0 <= k < |lines| ensures NoNewline(lines[k]) {
      var d := NatToString(k + 1);
      assert NoNewline(d);
      NoNewlineConcat(d, ". ");
      NoNewlineConcat(d + ". ", sans[2 * k]);
      if 2 * k + 1 < |sans| {
        NoNewlineConcat(" ", sans[2 * k + 1]);
      }
      NoNewlineConcat(d + ". " + sans[2 * k], if 2 * k + 1 < |sans| then " " + sans[2 * k + 1] else "");
    }
    if result != "*" && lines != [] {
      NoNewlineConcat(lines[|lines| - 1], " ");
      NoNewlineConcat(lines[|lines| - 1] + " ", result);
    }
  }

  /** Read line by line, the PGN text is the seven tags, a blank line, then the move lines with the
      result (a text with no moves and no result ends in a second blank line). */
  lemma {:induction false} PgnLines(event: string, site: string, date: string, white: string,
                                    black: string, result: string, sans: seq<string>)
    requires NoNewline(event) && NoNewline(site) && NoNewline(date) && NoNewline(white)
    requires NoNewline(black) && NoNewline(result)
    requires forall i :: 0 <= i < |sans| ==> NoNewline(sans[i])
    ensures var body := WithResult(MoveLines(sans), result);
            Split(PgnString(event, site, date, white, black, result, sans)) ==
            Header(event, site, date, white, black, result) + [""] + (if body == [] then [""] else body)
  {
    var header := Header(event, site, date, white, black, result);
    var body := WithResult(MoveLines(sans), result);
    HeaderNoNewline(event, site, date, white, black, result);
    SplitJoin(header);
    MoveLinesNoNewline(sans, result);
    SplitBlank(Join(header), Join(body));
    if body != [] {
      SplitJoin(body);
    }
  }

  lemma HeaderNoNewline(event: string, site: string, date: string, white: string, black: string,
                        result: string)
    requires NoNewline(event) && NoNewline(site) && NoNewline(date) && NoNewline(white)
    requires NoNewline(black) && NoNewline(result)
    ensures forall k :: 0 <= k < 7 ==> NoNewline(Header(event, site, date, white, black, result)[k])
  {
    var h := Header(event, site, date, white, black, result);
    forall k | 0 <= k < 7 ensures NoNewline(h[k]) {
      var name, value := TagParts(k, event, site, date, white, black, result);
      assert h[k] == Tag(name, value);
      assert NoNewline(name) && NoNewline(value);
    }
  }

  lemma TagParts(k: nat, event: string, site: string, date: string, white: string, black: string,
                 result: string) returns (name: string, value: string)
    requires k < 7
    ensures Header(event, site, date, white, black, result)[k] == Tag(name, value)
    ensures NoNewline(name)
    ensures name == ["Event", "Site", "Date", "Round", "White", "Black", "Result"][k]
    ensures value == [event, site, date, "1", white, black, result][k]
  {
    name := ["Event", "Site", "Date", "Round", "White", "Black", "Result"][k];
    value := [event, site, date, "1", white, black, result][k];
  }

  /** A blank line between two texts. */
  lemma SplitBlank(x: string, y: string)
    ensures Split(x + "\n\n" + y) == Split(x) + [""] + Split(y)
  {
    assert x + "\n\n" + y == x + "\n" + ("" + "\n" + y);
    SplitAt(x, "" + "\n" + y);
    SplitAt("", y);
  }

  /** With a decided result and at least one move, the text has eight lines before the move lines,
      one move line per pair of moves, and the result at the end of the last one. */
  lemma {:induction false} DecidedGameLines(event: string, site: string, date: string, white: string,
                                            black: string, result: string, sans: seq<string>)
    requires NoNewline(event) && NoNewline(site) && NoNewline(date) && NoNewline(white)
    requires NoNewline(black) && NoNewline(result) && result != "*" && sans != []
    requires forall i :: 0 <= i < |sans| ==> NoNewline(sans[i])
    ensures var lines := Split(PgnString(event, site, date, white, black, result, sans));
            |lines| == 8 + (|sans| + 1) / 2 && lines[7] == "" &&
            lines[|lines| - 1] == PairLine(sans, (|sans| - 1) / 2, 1) + " " + result
  {
    PgnLines(event, site, date, white, black, result, sans);
    LinesAt(sans, 1);
  }

  /** The notations of logged moves hold no newline, so DecidedGameLines and PgnLines apply to
      them. */
  lemma SansNoNewline(moves: seq<MoveRecord>, board: Board, reaches: seq<Reach>)
    requires |reaches| == |moves|
    requires forall i :: 0 <= i < |moves| ==>
               moves[i].isPawnPromotion ==> PromotionLetter(moves[i].promotionChoice)
    ensures forall i :: 0 <= i < |moves| ==> NoNewline(Sans(moves, board, reaches)[i])
  {
    forall i | 0 <= i < |moves| ensures NoNewline(Sans(moves, board, reaches)[i]) {
      SansAt(moves, board, reaches, i);
      SanNoNewline(moves[i], board, reaches[i]);
    }
  }

  lemma SanNoNewline(m: MoveRecord, board: Board, reach: Reach)
    requires m.isPawnPromotion ==> PromotionLetter(m.promotionChoice)
    ensures NoNewline(StandardAlgebraicNotation(m, board, reach))
  {
    RenderNoNewline(Notation(m, board, reach));
  }
}
