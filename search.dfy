// The AI's game-tree search (findMoveMiniMax, findMoveMiniMaxAlphaBeta, findBestMove).
//
// The engine's makeMove / getValidMoves / undoMove walk is replaced by an explicit tree: a node
// holds the position scoreBoard sees, one edge per legal move (in getValidMoves order, with the
// flags orderMoves inspects) and the random numbers its orderMoves call draws.  Instead of writing
// the global next_move, each search returns the value together with the move that last raised
// (or lowered) it; findBestMove reads that move at the root, the only depth where next_move is set.
module Search {
  import opened ChessTypes
  import opened Evaluation
  import opened MoveOrdering

  datatype Node = Node(pos: Position, edges: seq<Edge>, draws: seq<nat>)

  datatype Edge = Edge(flags: MoveFlags, child: Node)

  /** A search's value, and the edge index of the move that set it (None: no move improved
      on the starting bound). */
  datatype SearchResult = SearchResult(value: int, best: Option<nat>)

  /** getValidMoves: every legal move of the node, in order. */
  function AllMoves(n: Node): (moves: seq<nat>)
    ensures |moves| == |n.edges| && InBounds(moves, |n.edges|)
    ensures forall i :: 0 <= i < |moves| ==> moves[i] == i
  {
    seq(|n.edges|, i requires 0 <= i < |n.edges| => i)
  }

  function FlagsOf(n: Node, moves: seq<nat>): (flags: seq<MoveFlags>)
    requires InBounds(moves, |n.edges|)
    ensures |flags| == |moves|
  {
    seq(|moves|, i requires 0 <= i < |moves| => n.edges[moves[i]].flags)
  }

  function Pick(moves: seq<nat>, positions: seq<nat>): seq<nat>
    requires InBounds(positions, |moves|)
  {
    seq(|positions|, k requires 0 <= k < |positions| => moves[positions[k]])
  }

  /** orderMoves applied to the move list `moves` of node n, under the random numbers `draws`:
      the chosen moves, best first. */
  function Ordered(n: Node, moves: seq<nat>, draws: seq<nat>): (order: seq<nat>)
    requires InBounds(moves, |n.edges|)
    ensures InBounds(order, |n.edges|)
    ensures forall k :: 0 <= k < |order| ==> order[k] in moves
    ensures Distinct(moves) ==> Distinct(order)
  {
    var positions := OrderPositions(FlagsOf(n, moves), draws);
    OrderPositionsDistinct(FlagsOf(n, moves), draws);
    PickDistinct(moves, positions);
    Pick(moves, positions)
  }

  /** Picking distinct positions of a duplicate-free list picks distinct elements of it. */
  lemma PickDistinct(moves: seq<nat>, positions: seq<nat>)
    requires InBounds(positions, |moves|) && Distinct(positions)
    ensures forall k :: 0 <= k < |positions| ==> Pick(moves, positions)[k] in moves
    ensures Distinct(moves) ==> Distinct(Pick(moves, positions))
  {
    var picked := Pick(moves, positions);
    forall k | 0 <= k < |positions| ensures picked[k] in moves {
      assert picked[k] == moves[positions[k]];
    }
    if Distinct(moves) {
      forall i, j | 0 <= i < j < |picked| ensures picked[i] != picked[j] {
        assert positions[i] != positions[j];
      }
    }
  }

  /** The value max_eval / min_eval starts from. */
  function Initial(maximizing: bool): int
  {
    if maximizing then -Checkmate else Checkmate
  }

  /** `x` is strictly better than `y` for the side choosing. */
  predicate Better(maximizing: bool, x: int, y: int)
  {
    if maximizing then x > y else x < y
  }

  /** `x` is at least as good as `y` for the side choosing. */
  predicate AtLeast(maximizing: bool, x: int, y: int)
  {
    if maximizing then x >= y else x <= y
  }

  /** One loop step: a strictly better value replaces the current one and records the move. */
  function Improve(acc: SearchResult, e: int, m: nat, maximizing: bool): (r: SearchResult)
    ensures AtLeast(maximizing, r.value, acc.value) && AtLeast(maximizing, r.value, e)
    ensures r.best != acc.best ==> r == SearchResult(e, Some(m))
  {
    if Better(maximizing, e, acc.value) then SearchResult(e, Some(m)) else acc
  }

  predicate Bounded(x: int)
  {
    -Checkmate <= x <= Checkmate
  }

  // ---------------------------------------------------------------------------
  // findMoveMiniMax, as a function.

  /** findMoveMiniMax(game_state, moves, depth, is_maximizing). */
  function Minimax(n: Node, moves: seq<nat>, depth: nat, maximizing: bool): (r: SearchResult)
    requires InBounds(moves, |n.edges|)
    ensures Bounded(r.value)
    decreases depth, 1, 0
  {
    if depth == 0 then
      StaticScoreBounded(n.pos);
      SearchResult(StaticScore(n.pos), None)
    else
      MinimaxFold(n, Ordered(n, moves, n.draws), depth, maximizing,
                  SearchResult(Initial(maximizing), None))
  }

  /** The value the search gives the child reached by move m (the opponent chooses there). */
  function ChildValue(n: Node, m: nat, depth: nat, maximizing: bool): (v: int)
    requires 0 < depth && m < |n.edges|
    ensures Bounded(v)
    decreases depth, 0, 0
  {
    var child := n.edges[m].child;
    Minimax(child, AllMoves(child), depth - 1, !maximizing).value
  }

  /** The for-loop over the ordered moves, from the accumulator `acc`. */
  function MinimaxFold(n: Node, order: seq<nat>, depth: nat, maximizing: bool, acc: SearchResult)
    : (r: SearchResult)
    requires 0 < depth && InBounds(order, |n.edges|) && Bounded(acc.value)
    ensures Bounded(r.value)
    decreases depth, 0, |order|
  {
    if order == [] then acc
    else
      var e := ChildValue(n, order[0], depth, maximizing);
      MinimaxFold(n, order[1..], depth, maximizing, Improve(acc, e, order[0], maximizing))
  }

  // ---------------------------------------------------------------------------
  // findMoveMiniMaxAlphaBeta, as a function.

  /** findMoveMiniMaxAlphaBeta(game_state, moves, depth, is_maximizing, alpha, beta). */
  function AlphaBeta(n: Node, moves: seq<nat>, depth: nat, maximizing: bool, alpha: int, beta: int)
    : (r: SearchResult)
    requires InBounds(moves, |n.edges|)
    ensures Bounded(r.value)
    decreases depth, 1, 0
  {
    if depth == 0 then
      StaticScoreBounded(n.pos);
      SearchResult(StaticScore(n.pos), None)
    else
      AlphaBetaFold(n, Ordered(n, moves, n.draws), depth, maximizing, alpha, beta,
                    SearchResult(Initial(maximizing), None))
  }

  /** The value the pruned search gives the child reached by move m, in the window (alpha, beta). */
  function PrunedChildValue(n: Node, m: nat, depth: nat, maximizing: bool, alpha: int, beta: int)
    : (v: int)
    requires 0 < depth && m < |n.edges|
    ensures Bounded(v)
    decreases depth, 0, 0
  {
    var child := n.edges[m].child;
    AlphaBeta(child, AllMoves(child), depth - 1, !maximizing, alpha, beta).value
  }

  /** The pruned loop: after each child, alpha (at a maximising node) or beta (at a minimising
      one) moves to the child's value, and the loop stops once beta <= alpha. */
  function AlphaBetaFold(n: Node, order: seq<nat>, depth: nat, maximizing: bool,
                         alpha: int, beta: int, acc: SearchResult): (r: SearchResult)
    requires 0 < depth && InBounds(order, |n.edges|) && Bounded(acc.value)
    ensures Bounded(r.value)
    decreases depth, 0, |order|
  {
    if order == [] then acc
    else
      var e := PrunedChildValue(n, order[0], depth, maximizing, alpha, beta);
      var next := Improve(acc, e, order[0], maximizing);
      var alpha' := if maximizing then Max(alpha, e) else alpha;
      var beta' := if maximizing then beta else Min(beta, e);
      if beta' <= alpha' then next
      else AlphaBetaFold(n, order[1..], depth, maximizing, alpha', beta', next)
  }

  // ---------------------------------------------------------------------------
  // findBestMove, as a function.

  /** The root list: findBestMove's own orderMoves call over all legal moves. */
  function RootMoves(root: Node, rootDraws: seq<nat>): (moves: seq<nat>)
    ensures InBounds(moves, |root.edges|)
    ensures Distinct(moves)
  {
    Ordered(root, AllMoves(root), rootDraws)
  }

  /** findBestMove: next_move after the chosen search from the root, White maximising. */
  function BestMove(root: Node, rootDraws: seq<nat>, depth: nat, pruning: bool): Option<nat>
  {
    var moves := RootMoves(root, rootDraws);
    var maximizing := root.pos.whiteToMove;
    if pruning then AlphaBeta(root, moves, depth, maximizing, -Checkmate, Checkmate).best
    else Minimax(root, moves, depth, maximizing).best
  }

  // ---------------------------------------------------------------------------
  // The searches as the source writes them: recursive procedures with a loop over the moves.

  /** orderMoves on node n's move list, through the imperative OrderMoves. */
  method OrderNodeMoves(n: Node, moves: seq<nat>, draws: seq<nat>) returns (order: seq<nat>)
    requires InBounds(moves, |n.edges|)
    ensures order == Ordered(n, moves, draws)
  {
    var positions := OrderMoves(FlagsOf(n, moves), draws);
    OrderPositionsDistinct(FlagsOf(n, moves), draws);
    order := Pick(moves, positions);
  }

  /** findMoveMiniMax: returns the value and the move that last improved it. */
  method FindMoveMiniMax(n: Node, moves: seq<nat>, depth: nat, maximizing: bool)
    returns (value: int, best: Option<nat>)
    requires InBounds(moves, |n.edges|)
    ensures SearchResult(value, best) == Minimax(n, moves, depth, maximizing)
    decreases depth, 1
  {
    if depth == 0 {
      value := ScoreBoard(n.pos);
      best := None;
      return;
    }
    var order := OrderNodeMoves(n, moves, n.draws);
    value, best := Initial(maximizing), None;
    var i := 0;
    while i < |order|
      invariant 0 <= i <= |order| && Bounded(value)
      invariant MinimaxFold(n, order[i..], depth, maximizing, SearchResult(value, best)) ==
                Minimax(n, moves, depth, maximizing)
    {
      var m := order[i];
      var e := SearchChild(n, m, depth, maximizing);
      if Better(maximizing, e, value) {
        value, best := e, Some(m);
      }
      assert order[i..][1..] == order[i + 1..];
      i := i + 1;
    }
  }

  /** makeMove, getValidMoves, the recursive findMoveMiniMax call one ply down, undoMove. */
  method SearchChild(n: Node, m: nat, depth: nat, maximizing: bool) returns (e: int)
    requires 0 < depth && m < |n.edges|
    ensures e == ChildValue(n, m, depth, maximizing)
    decreases depth, 0
  {
    var child := n.edges[m].child;
    var nextMoves := AllMoves(child);
    var move;
    e, move := FindMoveMiniMax(child, nextMoves, depth - 1, !maximizing);
  }

  /** findMoveMiniMaxAlphaBeta: the same loop, narrowing (alpha, beta) and leaving it once the
      window closes. */
  method FindMoveMiniMaxAlphaBeta(n: Node, moves: seq<nat>, depth: nat, maximizing: bool,
                                  alpha0: int, beta0: int)
    returns (value: int, best: Option<nat>)
    requires InBounds(moves, |n.edges|)
    ensures SearchResult(value, best) == AlphaBeta(n, moves, depth, maximizing, alpha0, beta0)
    decreases depth, 1
  {
    if depth == 0 {
      value := ScoreBoard(n.pos);
      best := None;
      return;
    }
    var order := OrderNodeMoves(n, moves, n.draws);
    var alpha, beta := alpha0, beta0;
    value, best := Initial(maximizing), None;
    var i := 0;
    while i < |order|
      invariant 0 <= i <= |order| && Bounded(value)
      invariant AlphaBetaFold(n, order[i..], depth, maximizing, alpha, beta, SearchResult(value, best)) ==
                AlphaBeta(n, moves, depth, maximizing, alpha0, beta0)
    {
      var m := order[i];
      var e := SearchChildPruned(n, m, depth, maximizing, alpha, beta);
      assert order[i..][0] == m && order[i..][1..] == order[i + 1..];
      if Better(maximizing, e, value) {
        value, best := e, Some(m);
      }
      if maximizing {
        alpha := Max(alpha, e);
      } else {
        beta := Min(beta, e);
      }
      if beta <= alpha {
        break;
      }
      i := i + 1;
    }
  }

  /** makeMove, getValidMoves, the recursive findMoveMiniMaxAlphaBeta call, undoMove. */
  method SearchChildPruned(n: Node, m: nat, depth: nat, maximizing: bool, alpha: int, beta: int)
    returns (e: int)
    requires 0 < depth && m < |n.edges|
    ensures e == PrunedChildValue(n, m, depth, maximizing, alpha, beta)
    decreases depth, 0
  {
    var child := n.edges[m].child;
    var nextMoves := AllMoves(child);
    var move;
    e, move := FindMoveMiniMaxAlphaBeta(child, nextMoves, depth - 1, !maximizing, alpha, beta);
  }

  /** findBestMove: orders the legal moves once, runs the chosen search from the root and
      returns next_move. */
  method FindBestMove(root: Node, rootDraws: seq<nat>, depth: nat, pruning: bool)
    returns (nextMove: Option<nat>)
    ensures nextMove == BestMove(root, rootDraws, depth, pruning)
  {
    var moves := OrderNodeMoves(root, AllMoves(root), rootDraws);
    var isWhite := root.pos.whiteToMove;
    var value;
    if pruning {
      value, nextMove := FindMoveMiniMaxAlphaBeta(root, moves, depth, isWhite, -Checkmate, Checkmate);
    } else {
      value, nextMove := FindMoveMiniMax(root, moves, depth, isWhite);
    }
  }
}
