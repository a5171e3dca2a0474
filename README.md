# Chess AI front end: evaluation, search, PGN export and game-loop rules

This project models the decision-making core of a small Python chess program:

- **Static evaluation** (`scoreBoard`): material values plus positional tables.
- **Move ordering and search:**
  - `orderMoves`, the move-ordering heuristic: a stable sort by a capture/promotion/check score, a 40% "exploit" prefix and a random 20% "explore" sample;
  - the two searches, plain minimax and alpha-beta;
  - `findBestMove`, which picks the root move.
- **PGN export:** the seven-tag header, the numbered move lines, the result, and Standard Algebraic Notation (SAN) with its disambiguation rule.
- **Game-loop rules:**
  - whose turn it is;
  - how a move made on the board is tagged en passant or castle;
  - the promotion piece and check flags recorded on a move;
  - the AI's fallback to a random move;
  - how a finished game is turned into a result and a message.

The project has one module per concern:

| module | file | models |
|---|---|---|
| `ChessTypes` | chess_types.dfy | colours, piece kinds, cells, squares, the 8x8 board (row 0 is rank 8, column 0 is file a) |
| `Evaluation` | evaluation.dfy | `piece_score`, the positional tables, `scoreBoard` |
| `MoveOrdering` | move_ordering.dfy | `orderMoves` |
| `Search` | search.dfy | `findMoveMiniMax`, `findMoveMiniMaxAlphaBeta`, `findBestMove` |
| `SearchLaws` | search_laws.dfy | what the two searches compute, and why alpha-beta agrees with minimax |
| `SanNotation` | san.dfy | `_get_standard_algebraic_notation`, `_get_disambiguation` |
| `PgnExport` | pgn.dfy | `generate_pgn_string` |
| `GameLoop` | game_loop.dfy | the rule logic of `Game.mainLoop` |

**Scores.** All scores are in hundredths of a pawn. A pawn is 100, and CHECKMATE (1000 pawns) is 100000. Every entry of the source's tables is then an integer.

**Searches.** The searches run over an explicit game tree, `Search.Node`:
- A node holds the position `scoreBoard` reads.
- It has one edge per legal move. The edges are in the engine's move order, and each holds the flags `orderMoves` inspects.
- It also holds the random numbers its own `orderMoves` call consumes.

As in the source, the root moves are ordered twice: once by `findBestMove` (src/ChessAI.py:89) and again inside the search it calls (src/ChessAI.py:118 and :162). Each ordering uses its own random numbers.

The source keeps a global `next_move`, written only at the root depth. Instead, each search here returns `SearchResult(value, best)`, and `findBestMove` reads `best` at the root.

**Methods and specification functions.** The imperative parts of the source are Dafny methods with loops. Each is proved equal to a specification function:
- `ScoreBoard`
- `OrderMoves`
- `FindMoveMiniMax`
- `FindMoveMiniMaxAlphaBeta`
- `GetDisambiguation`
- `GetStandardAlgebraicNotation`
- `GeneratePgnString`

The lemmas state the source's promises about those functions.

**The move object.** The game loop's move object is a class, `GameLoop.Move`. The loop's tagging steps update its fields in place.

## Model

| member | source | states |
|---|---|---|
| Evaluation.WhiteTable | src/ChessAI.py:10-54 | a non-king kind has a positional table, and it is 8x8 |
| Evaluation.PieceValue | src/ChessAI.py:7 | piece_score in hundredths of a pawn: never negative, at most a queen (900), and 0 exactly for the king |
| Evaluation.PositionTable | src/ChessAI.py:55-64 | each colour's table of a kind is 8x8; Black's is White's with its rows reversed |
| Evaluation.CellScore | src/ChessAI.py:211-220 | definition: an empty square adds 0; a piece adds its value plus its table entry (none for a king), with a plus sign for White and a minus sign for Black |
| Evaluation.MaterialScore | src/ChessAI.py:208-222 | definition: the sum of every cell's contribution, row by row; bounded by MaterialScoreBounded |
| Evaluation.StaticScore | src/ChessAI.py:196-222 | definition: -CHECKMATE on checkmate with White to move, +CHECKMATE with Black to move, 0 on stalemate, otherwise the material score; bounded by StaticScoreBounded |
| Evaluation.ScoreBoard | src/ChessAI.py:196-222 | the nested loop over rows and columns gives exactly the static score: ±CHECKMATE on checkmate, 0 on stalemate, otherwise the sum of (material + position) for White minus the same for Black |
| Evaluation.TablesWithin | src/ChessAI.py:10-54 | every positional entry lies in [0, 0.8] pawns |
| Evaluation.CellScoreBounded | src/ChessAI.py:211-220 | one cell contributes at most a queen plus 0.8 (980) in either direction |
| Evaluation.MaterialScoreBounded | src/ChessAI.py:208-222 | a non-terminal score lies within ±64·980, strictly inside (-CHECKMATE, CHECKMATE) |
| Evaluation.StaticScoreBounded | src/ChessAI.py:196-222 | scoreBoard never leaves [-CHECKMATE, CHECKMATE] |
| Evaluation.TerminalScores | src/ChessAI.py:200-206 | checkmate scores -1000 pawns with White to move and +1000 with Black to move; a mate beats every non-terminal position for the winner; stalemate scores 0 |
| Evaluation.OnlyKingsScoreZero | src/ChessAI.py:214-220 | kings add nothing (no material, no positional term), so a board of kings alone scores 0 |
| Evaluation.MirrorBoard | src/ChessAI.py:55-64 | the mirrored board holds, on each square, the colour-swapped piece of the square with the same file on the mirrored rank |
| Evaluation.MirrorNegatesMaterial | src/ChessAI.py:209-222 | mirroring ranks and swapping colours negates the non-terminal score |
| Evaluation.MirrorNegatesScore | src/ChessAI.py:196-222 | with the side to move also swapped, the whole score is negated, terminal positions included |
| MoveOrdering.OrderingScoreDecodes | src/ChessAI.py:282-296 | the ordering score 10·capture + 8·promotion + 5·check lies in 0..23 and determines the three flags |
| MoveOrdering.OrderingScore | src/ChessAI.py:282-296 | definition: 10 for a capture, plus 8 for a promotion, plus 5 for a check; its range and injectivity are OrderingScoreDecodes |
| MoveOrdering.NumExploit | src/ChessAI.py:306 | num_exploit is at least 1 and, for a non-empty list, at most its length |
| MoveOrdering.NumExplore | src/ChessAI.py:311 | num_explore is 0 exactly when nothing remains after the exploit prefix |
| MoveOrdering.Exploit | src/ChessAI.py:306-307 | exploit_moves holds min(num_exploit, n) positions, all within the candidate list |
| MoveOrdering.Explore | src/ChessAI.py:309-312 | every explore move comes from remaining_moves, the part the exploit prefix left |
| MoveOrdering.OrderPositions | src/ChessAI.py:305-316 | definition: exploit moves followed by explore moves; its length, distinctness and ranking are OrderPositionsLength, OrderPositionsDistinct and ExploitIsBest |
| MoveOrdering.Insert | src/ChessAI.py:302 | inserting a position adds exactly that one element |
| MoveOrdering.InsertSorted | src/ChessAI.py:302 | insertion into a stably sorted list keeps it stably sorted |
| MoveOrdering.SortPrefix | src/ChessAI.py:302 | sorting positions 0..n-1 gives n elements, exactly those positions |
| MoveOrdering.StableSortDescCorrect | src/ChessAI.py:302-303 | `sorted(..., reverse=True)`: a permutation of the positions in descending score, and equal scores keep their input order |
| MoveOrdering.RemoveAt | src/ChessAI.py:312 | removing an element keeps the others in order |
| MoveOrdering.Sample | src/ChessAI.py:312 | `random.sample` draws min(k, len) elements of the pool |
| MoveOrdering.SampleDistinct | src/ChessAI.py:312 | the sample of a duplicate-free pool has no duplicates |
| MoveOrdering.SampleComplete | src/ChessAI.py:312 | every duplicate-free choice of the right size is the sample for some random numbers, so none of random.sample's outcomes is missing |
| MoveOrdering.Keys | src/ChessAI.py:280-298 | every candidate gets one score |
| MoveOrdering.OrderPositionsDistinct | src/ChessAI.py:305-316 | orderMoves returns only input moves, none twice |
| MoveOrdering.OrderPositionsLength | src/ChessAI.py:305-313 | the output is empty iff the input is; otherwise max(1, ⌊0.4n⌋) exploit moves and min(max(1, ⌊0.2n⌋), remaining) explore moves (0 when none remain) |
| MoveOrdering.ExploitIsBest | src/ChessAI.py:302-307 | the exploit prefix is stably sorted by descending score, and no move left out scores higher than one kept |
| MoveOrdering.OrderMoves | src/ChessAI.py:270-316 | the loop that appends the scores, then the sort and slices, gives exactly the specified ordering |
| Search.AllMoves | src/ChessAI.py:124 | getValidMoves at a node lists each of its moves once, in order |
| Search.Ordered | src/ChessAI.py:118 | orderMoves at a node keeps only moves of the list it was given, within the node's moves, and none twice when the list had no repeats |
| Search.Improve | src/ChessAI.py:127-130 | one loop step ends no worse than the running best and than the child's value, and changes the move only to that child with that value |
| Search.ChildValue | src/ChessAI.py:123-126 | the value of the child reached by one move, searched one level shallower for the other side, lies within ±CHECKMATE |
| Search.MinimaxFold | src/ChessAI.py:120-143 | the loop over the ordered moves keeps its value within ±CHECKMATE; its laws are SearchLaws.FoldLaws |
| Search.PrunedChildValue | src/ChessAI.py:167-170 | the same child value in the window (alpha, beta) lies within ±CHECKMATE |
| Search.AlphaBetaFold | src/ChessAI.py:164-193 | the pruned loop, which stops once beta <= alpha, keeps its value within ±CHECKMATE; it agrees with MinimaxFold by SearchLaws.FoldRoot |
| Search.RootMoves | src/ChessAI.py:89 | findBestMove's own ordering of the root: moves of the root only, none twice |
| Search.BestMove | src/ChessAI.py:89-100 | definition: next_move after the search chosen by the algorithm, run from the root with White maximising; its laws are SearchLaws.BestMoveLaws and PruningKeepsMove |
| Search.Minimax | src/ChessAI.py:103-143 | findMoveMiniMax's value stays within ±CHECKMATE |
| Search.AlphaBeta | src/ChessAI.py:146-193 | findMoveMiniMaxAlphaBeta's value stays within ±CHECKMATE |
| Search.FindMoveMiniMax | src/ChessAI.py:103-143 | the recursive procedure with its loop over ordered moves computes the specified minimax value and move |
| Search.FindMoveMiniMaxAlphaBeta | src/ChessAI.py:146-193 | the pruned procedure, which moves alpha or beta and breaks once beta <= alpha, computes the specified alpha-beta value and move |
| Search.OrderNodeMoves | src/ChessAI.py:118 | the search's orderMoves call gives the specified ordering of the node's moves |
| Search.FindBestMove | src/ChessAI.py:73-100 | findBestMove orders the root moves once, runs the chosen search from the root and returns next_move |
| SearchLaws.FoldLaws | src/ChessAI.py:120-131 | the maximiser's (minimiser's) loop ends no worse than its start and than every child; it keeps the start exactly when no child beats it strictly, else ends on the first child reaching the final value |
| SearchLaws.MinimaxNode | src/ChessAI.py:115-143 | at depth > 0 the value is the best of ∓CHECKMATE and the children's values; the move is the first child, in orderMoves order, strictly better than every earlier one and than the start; no move exactly when the value stays at the start |
| SearchLaws.MinimaxNoMove | src/ChessAI.py:87-143 | no move is reported iff every searched child is worth exactly the starting ∓CHECKMATE, in particular when there are no children |
| SearchLaws.FoldSaturated | src/ChessAI.py:127-131 | once the loop has reached the cap, later children change nothing |
| SearchLaws.AlphaBetaClamp | src/ChessAI.py:146-193 | in any window -CHECKMATE <= alpha < beta <= CHECKMATE, alpha-beta and minimax agree once both are clamped to the window |
| SearchLaws.ChildClamp | src/ChessAI.py:167-171 | the same agreement for the child reached by one move |
| SearchLaws.FoldRoot | src/ChessAI.py:161-193 | at the window (-CHECKMATE, CHECKMATE) the pruned loop gives the same value and move as the full loop |
| SearchLaws.AlphaBetaIsMinimax | src/ChessAI.py:146-193 | alpha-beta from the root window equals minimax: same value and same move |
| SearchLaws.PruningKeepsMove | src/ChessAI.py:92-98 | findBestMove returns the same move with and without pruning, for the same per-node orderings (one fixed tree with its random numbers) |
| SearchLaws.BestMoveLaws | src/ChessAI.py:73-100 | findBestMove returns no move at depth 0, and otherwise the move minimax reports at the root for the root list |
| SanNotation.GetDisambiguation | src/PGNExporter.py:174-234 | the 64-square scan with its two flags returns the origin file when a rival stands on another file, and the origin rank when a rival stands on another rank and either no file was added or the mover is a rook |
| SanNotation.FileHint | src/PGNExporter.py:223-230 | definition: the origin file exactly when some rival stands on another file |
| SanNotation.RankHint | src/PGNExporter.py:225-232 | definition: the origin rank exactly when some rival stands on another rank and either no file hint was written or the mover is a rook |
| SanNotation.Disambiguation | src/PGNExporter.py:174-234 | definition: file hint then rank hint; what it separates is NoHintNoRival, UnresolvedRivals and RookHintsSeparate |
| SanNotation.ScanStep | src/PGNExporter.py:190-226 | one scanned square raises a flag exactly when it holds a rival on another file (rank) |
| SanNotation.GetStandardAlgebraicNotation | src/PGNExporter.py:118-172 | the step-by-step string building gives exactly the rendered notation of the move |
| SanNotation.Notation | src/PGNExporter.py:126-170 | definition: castling side from the king's move; for a pawn the origin file on capture and the promotion choice; for a piece its letter, hints and capture; then the check marker and en passant |
| SanNotation.Render | src/PGNExporter.py:126-170 | definition: the move part, the check marker, then " e.p." unless castling; it loses nothing by ReadRender |
| SanNotation.StandardAlgebraicNotation | src/PGNExporter.py:118-172 | definition: the rendered notation of the move; injective by NotationInjective |
| SanNotation.AddSuffix | src/PGNExporter.py:162-166 | "#" on checkmate, else "+" on check, else nothing |
| SanNotation.ReadRender | src/PGNExporter.py:118-172 | every well-formed notation value reads back from its text: the text loses nothing |
| SanNotation.NotationRead | src/PGNExporter.py:118-172 | a move's SAN text reads back as its notation: castling side, destination, capture, promotion, hints, check marker and " e.p." |
| SanNotation.NotationInjective | src/PGNExporter.py:118-172 | two moves get the same text iff they get the same notation |
| SanNotation.CastleRead | src/PGNExporter.py:127-139 | "O-O" / "O-O-O" plus marker reads back as kingside iff the king went two columns right |
| SanNotation.PawnRead | src/PGNExporter.py:147-170 | a pawn move's text (origin file + "x" on capture, destination, "=" + choice on promotion, marker, " e.p.") reads back |
| SanNotation.PieceRead | src/PGNExporter.py:157-170 | a piece move's text (letter, hints, "x", destination, marker, " e.p.") reads back |
| SanNotation.SuffixesOf | src/PGNExporter.py:162-170 | the check marker and " e.p." come after the move part and split off cleanly |
| SanNotation.FileCharRead | src/PGNExporter.py:149 | file letters a-h are distinct and none is a marker character |
| SanNotation.RankCharRead | src/PGNExporter.py:232 | rank digits 1-8 are distinct and none is a marker character |
| SanNotation.NoHintNoRival | src/PGNExporter.py:190-234 | no disambiguation is written iff no other piece of the mover's colour and kind can reach the destination |
| SanNotation.UnresolvedRivals | src/PGNExporter.py:228-232 | a rival the hints fail to tell apart is exactly one on the mover's own file, when the mover is not a rook and a file hint was forced |
| SanNotation.RookHintsSeparate | src/PGNExporter.py:231 | for a rook the hints tell the mover apart from every rival |
| SanNotation.ThreeKnights | src/PGNExporter.py:228-232 | knights on c3, c7 and e3 all reaching d5: the move from c3 is written "Ncd5", which the c7 knight shares |
| PgnExport.NatToString | src/PGNExporter.py:49 | the move number is written as a non-empty digit string |
| PgnExport.NatToStringRead | src/PGNExporter.py:49 | the digits read back as the move number |
| PgnExport.Split | src/PGNExporter.py:69-70 | splitting at newlines gives at least one line |
| PgnExport.SplitAt | src/PGNExporter.py:69-70 | splitting at a newline separates the two sides' lines |
| PgnExport.SplitJoin | src/PGNExporter.py:69 | joining newline-free lines with "\n" and splitting gives the lines back |
| PgnExport.Header | src/PGNExporter.py:31-39 | the header is seven tag lines |
| PgnExport.HeaderNoNewline | src/PGNExporter.py:31-39 | the tags hold no newline when their values hold none |
| PgnExport.TagParts | src/PGNExporter.py:31-39 | tag k has the k-th name of Event, Site, Date, Round, White, Black, Result and the k-th value of event, site, date, "1", white, black, result; no name holds a newline |
| PgnExport.LinesAt | src/PGNExporter.py:45-59 | ⌈n/2⌉ move lines; line k is "k+1. san[2k]" followed by " san[2k+1]" when that move exists |
| PgnExport.MoveLines | src/PGNExporter.py:41-59 | there are ⌈n/2⌉ move lines for n logged moves; their content is LinesAt |
| PgnExport.WithResult | src/PGNExporter.py:62-66 | "*" keeps the number of lines; any other result leaves at least one line and adds one only when there were none |
| PgnExport.PgnString | src/PGNExporter.py:18-72 | definition: the joined header, a blank line, then the joined move lines with the result; read line by line by PgnLines |
| PgnExport.Sans | src/PGNExporter.py:45-53 | one notation per logged move |
| PgnExport.SansAt | src/PGNExporter.py:45-53 | the i-th notation is the SAN of the i-th logged move |
| PgnExport.MoveNotation | src/PGNExporter.py:49-53 | the notation of one logged move |
| PgnExport.GeneratePgnString | src/PGNExporter.py:18-72 | the whole text: header, the move lines collected by the loop, the result, and the joins |
| PgnExport.CollectMoveLines | src/PGNExporter.py:45-59 | the loop opens a line on each White move, closes it on Black's, and keeps a line left open |
| PgnExport.AppendResult | src/PGNExporter.py:62-70 | the result is placed, then header and move lines are joined with a blank line between |
| PgnExport.ResultPlacement | src/PGNExporter.py:62-66 | "*" adds nothing; any other result is appended after a space to the last line (the other lines untouched), or is the only line when there are no moves |
| PgnExport.RenderNoNewline | src/PGNExporter.py:118-172 | a SAN text holds no newline |
| PgnExport.MoveLinesNoNewline | src/PGNExporter.py:45-66 | move lines with the result hold no newline |
| PgnExport.SplitBlank | src/PGNExporter.py:70 | "\n\n" puts one blank line between the two parts |
| PgnExport.PgnLines | src/PGNExporter.py:69-70 | read line by line, the text is the seven tags, one blank line, then the move lines with the result |
| PgnExport.DecidedGameLines | src/PGNExporter.py:45-70 | with a decided result and at least one move: 8 + ⌈n/2⌉ lines, line 8 blank, and the last line is the last move pair followed by " result" |
| PgnExport.SansNoNewline | src/PGNExporter.py:45-53 | no logged move's notation holds a newline |
| GameLoop.PlayersFor | src/ChessMain_Module.py:47-58 | player_one is always human; player_two is human iff the mode is not 'ai' |
| GameLoop.HumanTurn | src/ChessMain_Module.py:76-77 | it is a human's turn iff White is to move or the game is player against player |
| GameLoop.AiToMove | src/ChessMain_Module.py:201 | definition: 'ai' mode, game not over, not the human's turn and no move just undone; simplified by AiPlaysBlack |
| GameLoop.AiPlaysBlack | src/ChessMain_Module.py:201 | the AI moves iff in 'ai' mode, Black to move, the game not over and no move just undone |
| GameLoop.GameOver | src/ChessMain_Module.py:239 | definition: any of checkmate, stalemate, fifty-move rule, threefold repetition or insufficient material |
| GameLoop.MessageText | src/ChessMain_Module.py:247-257 | definition: the six end messages, in the source's wording |
| GameLoop.ResultOf | src/ChessMain_Module.py:245-249 | checkmate gives "0-1" with White to move and "1-0" with Black to move; every other end gives "1/2-1/2" |
| GameLoop.MessageOf | src/ChessMain_Module.py:245-257 | the winner by mate, otherwise the first draw reason in the order stalemate, threefold repetition, fifty-move rule, insufficient material |
| GameLoop.GameEnd | src/ChessMain_Module.py:239-240 | the game ends iff one of the five terminal flags is set |
| GameLoop.OutcomeAgrees | src/ChessMain_Module.py:245-257 | the message names White (Black) as winner iff the result is "1-0" ("0-1"), and is a draw message iff the result is "1/2-1/2" |
| GameLoop.EndedGameExport | src/ChessMain_Module.py:258-259 | the exported file of a finished game ends with the last move pair and the result, after the header and one blank line |
| GameLoop.PythonRow | src/ChessMain_Module.py:133-134 | Python row indexing: -8..7 index the board (negative from the end), anything else raises |
| GameLoop.EnPassantShape | src/ChessMain_Module.py:126-130 | definition: a pawn moving one row and one column onto an empty square that is the en-passant target |
| GameLoop.CapturedRow | src/ChessMain_Module.py:133 | definition: the row after the destination for White, the row before it for Black, before Python indexing |
| GameLoop.EnPassantTag | src/ChessMain_Module.py:126-137 | the lookup fails only for a White pawn's destination on the last row; a tag needs a pawn moving one row and one column onto the empty en-passant target with an enemy pawn behind it |
| GameLoop.EnPassantOnTargetRanks | src/ChessMain_Module.py:126-137 | with the target on rows 2 or 5, the check never fails and tags the move iff it is that diagonal pawn step onto the empty target with an enemy pawn directly behind |
| GameLoop.CastleShape | src/ChessMain_Module.py:141 | definition: a king moving exactly two columns |
| GameLoop.Move.Record | src/PGNExporter.py:127-170 | the record the exporter reads carries the move's squares, mover, the engine's capture and promotion flags, and every tag the loop set: promotion choice, en passant, castle, check, checkmate |
| GameLoop.Move.TagEnPassant | src/ChessMain_Module.py:126-137 | sets the en-passant tag exactly as the check decides, or reports the failing lookup; nothing else changes |
| GameLoop.Move.TagCastle | src/ChessMain_Module.py:140-143 | a castle iff a king moves exactly two columns; only the castle tag changes |
| GameLoop.Move.SetPromotion | src/ChessMain_Module.py:149-152 | the piece handed to makeMove is the choice when the move promotes, else 'Q'; the choice is recorded only on a promotion |
| GameLoop.Move.Annotate | src/ChessMain_Module.py:160-161 | the move records the engine's check and checkmate status |
| GameLoop.TagUiMove | src/ChessMain_Module.py:126-143 | a released move: the en-passant check, then (unless it failed) the castle check |
| GameLoop.CompleteHumanMove | src/ChessMain_Module.py:149-161 | a legal human move uses the chosen promotion piece and records check status |
| GameLoop.CompleteAiMove | src/ChessMain_Module.py:214-231 | the AI's move gets the castle check, always promotes to 'Q', and records check status |
| GameLoop.CastleTagNotation | src/PGNExporter.py:127-139 | a castle-tagged move is written "O-O" when the king went right, else "O-O-O", plus its marker |
| GameLoop.RecordedCastle | src/PGNExporter.py:127-139 | a Move the loop tagged as a castle is exported as "O-O" when the king went two columns right, else "O-O-O", then "#" after checkmate or "+" after check |
| GameLoop.AiChoice | src/ChessMain_Module.py:210-212 | the search's move when there is one, else a random valid move; no move only when both are missing |
| GameLoop.AiPlaysLegalMove | src/ChessMain_Module.py:210-212 | with findBestMove as the search, the AI plays a move of the root iff the root has one |

## Left out

- **The engine (ChessEngine.py), which is not part of this model.** This covers `GameState`, the `Move` constructor, `makeMove`/`undoMove`, `getValidMoves`, `inCheck` and the draw flags.
  - The search tree, the terminal flags, the en-passant target and the check status are inputs.
  - The engine's move generators, as used by `_get_disambiguation`, are the `Reach` parameter over the board being exported.
  - `GameLoop.Move`'s constructor starts with every tag cleared and promotion 'Q'. It does not reproduce the engine's constructor.
  - GameLoop.Move.constructor: takes the engine's `is_capture` and `is_pawn_promotion` as inputs instead of deriving them from the board, so the en-passant capture flag is whatever the engine sets.
- **Concurrency.** The `Process`/`Queue` worker, `is_alive` polling and `terminate()` are left out. The search is a plain call.
- **Randomness.** `random.sample` and `random.choice` are replaced by explicit random numbers: the `draws` of each node, `rootDraws` and `draw`.
  - In the source, every `orderMoves` call draws from one shared random stream, in the order the search visits the nodes. A cutoff skips the draws of the pruned subtrees, so every later node samples from a different point of the stream than it would without pruning.
  - The model fixes each node's draws in the tree instead.
- SearchLaws.PruningKeepsMove: holds for the same per-node orderings (one fixed tree with its draws). With the source's shared stream, the two searches can order later nodes differently and may then pick different moves.
- **Float arithmetic.** Scores are scaled by 100 to integers, and Python float rounding is not modelled. `int(0.4*n)` is `(2*n)/5` and `int(0.2*n)` is `n/5`.
- **Time and I/O.** `datetime.now()` is the `date` parameter. `export_to_file`, `print`, sounds, drawing, animation, the promotion dialog (its answer is the `choice` parameter), menus, themes and the window are all left out.
- **`_check_move_results` in the PGN exporter.** It replays the game with `deepcopy` and engine calls.
- **Other key handlers.** The undo (Z), restart (R), theme (N) and export (E) keys are left out. So is the membership test `move in validMoves`, which needs the engine's move equality.
- **File and rank names.** `rows_to_ranks` and `cols_to_files` live in the engine. They are taken as the standard mapping: row 0 is rank 8, column 0 is file a.
- **The rook-only rank rule of `_get_disambiguation` is kept as the source has it.** A knight, bishop, queen or king whose rivals share both its file and its rank gets only the file hint. That text can be ambiguous, as `SanNotation.ThreeKnights` shows.
- **The en-passant check's Python indexing is modelled exactly.** A Black destination on row 0 looks at row 7, because index -1 wraps. A White destination on row 7 raises IndexError, which is modelled as `failed` / `None`. The engine puts its en-passant target only on rows 2 and 5, where neither happens (`GameLoop.EnPassantOnTargetRanks`).
- **The human branch's `human_turn` test.** `move.is_pawn_promotion and human_turn` is modelled as `isPawnPromotion` alone. `human_turn` always holds inside the mouse-release handler that runs it.
- **The order of the steps in the AI branch.** `makeMove` runs between the promotion step and the check annotation. It is the engine's, so `CompleteAiMove` takes its check status as input.
- **The messages.** Their texts are kept (`GameLoop.MessageText`), but they are only printed.
