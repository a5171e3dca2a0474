// What the two searches compute, and why pruning does not change the move findBestMove returns.
module SearchLaws {
  import opened ChessTypes
  import opened Evaluation
  import opened MoveOrdering
  import opened Search

  // ---------------------------------------------------------------------------
  // Plain minimax.

  /** The loop ends no worse than it started and no worse than any child it visits; it keeps the
      accumulator exactly when nothing beats it, and otherwise ends on the first child that
      reaches the final value, every earlier child being strictly worse. */
  lemma {:induction false} FoldLaws(n: Node, order: seq<nat>, depth: nat, maximizing: bool,
                                     acc: SearchResult)
    requires 0 < depth && InBounds(order, |n.edges|) && Bounded(acc.value)
    ensures var r := MinimaxFold(n, order, depth, maximizing, acc);
      AtLeast(maximizing, r.value, acc.value) &&
      (forall i :: 0 <= i < |order| ==>
         AtLeast(maximizing, r.value, ChildValue(n, order[i], depth, maximizing))) &&
      (r.value == acc.value ==> r == acc) &&
      (r.value != acc.value ==>
         exists i :: 0 <= i < |order| && r.best == Some(order[i]) &&
           ChildValue(n, order[i], depth, maximizing) == r.value &&
           forall k :: 0 <= k < i ==> Better(maximizing, r.value, ChildValue(n, order[k], depth, maximizing)))
    decreases |order|
  {
    if order != [] {
      var e := ChildValue(n, order[0], depth, maximizing);
      var next := Improve(acc, e, order[0], maximizing);
      var rest := order[1..];
      FoldLaws(n, rest, depth, maximizing, next);
      var r := MinimaxFold(n, rest, depth, maximizing, next);
      assert r == MinimaxFold(n, order, depth, maximizing, acc);
      forall i | 0 <= i < |order|
        ensures AtLeast(maximizing, r.value, ChildValue(n, order[i], depth, maximizing))
      {
        if i > 0 {
          assert order[i] == rest[i - 1];
        }
      }
      if r.value != acc.value {
        if r.value == next.value {
          assert r == next;
          assert next != acc;
          assert r.best == Some(order[0]) && e == r.value;
        } else {
          var i :| 0 <= i < |rest| && r.best == Some(rest[i]) &&
            ChildValue(n, rest[i], depth, maximizing) == r.value &&
            forall k :: 0 <= k < i ==> Better(maximizing, r.value, ChildValue(n, rest[k], depth, maximizing));
          assert order[i + 1] == rest[i];
          forall k | 0 <= k < i + 1
            ensures Better(maximizing, r.value, ChildValue(n, order[k], depth, maximizing))
          {
            if k > 0 {
              assert order[k] == rest[k - 1];
            }
          }
        }
      }
    }
  }

  /** The loop never ends worse than its accumulator. */
  lemma {:induction false} FoldKeepsBest(n: Node, order: seq<nat>, depth: nat, maximizing: bool,
                                          acc: SearchResult)
    requires 0 < depth && InBounds(order, |n.edges|) && Bounded(acc.value)
    ensures AtLeast(maximizing, MinimaxFold(n, order, depth, maximizing, acc).value, acc.value)
    decreases |order|
  {
    if order != [] {
      var e := ChildValue(n, order[0], depth, maximizing);
      FoldKeepsBest(n, order[1..], depth, maximizing, Improve(acc, e, order[0], maximizing));
    }
  }

  /** findMoveMiniMax at depth > 0: its value is at least as good as every searched child's; it
      reports no move exactly when it stays at the starting -CHECKMATE / CHECKMATE; otherwise the
      move it reports is the FIRST child, in orderMoves order, that reaches the value. */
  lemma MinimaxNode(n: Node, moves: seq<nat>, depth: nat, maximizing: bool)
    requires 0 < depth && InBounds(moves, |n.edges|)
    ensures var r := Minimax(n, moves, depth, maximizing);
      var order := Ordered(n, moves, n.draws);
      (forall i :: 0 <= i < |order| ==>
         AtLeast(maximizing, r.value, ChildValue(n, order[i], depth, maximizing))) &&
      (r.best.None? <==> r.value == Initial(maximizing)) &&
      (r.best.Some? ==>
         exists i :: 0 <= i < |order| && order[i] == r.best.value &&
           ChildValue(n, order[i], depth, maximizing) == r.value &&
           forall k :: 0 <= k < i ==> Better(maximizing, r.value, ChildValue(n, order[k], depth, maximizing)))
  {
    FoldLaws(n, Ordered(n, moves, n.draws), depth, maximizing, SearchResult(Initial(maximizing), None));
  }

  /** A loop that has already reached the cap (CHECKMATE when maximising, -CHECKMATE when
      minimising) changes nothing more. */
  lemma {:induction false} FoldSaturated(n: Node, order: seq<nat>, depth: nat, maximizing: bool,
                                          acc: SearchResult)
    requires 0 < depth && InBounds(order, |n.edges|)
    requires acc.value == -Initial(maximizing)
    ensures MinimaxFold(n, order, depth, maximizing, acc) == acc
    decreases |order|
  {
    if order != [] {
      FoldSaturated(n, order[1..], depth, maximizing, acc);
    }
  }

  // ---------------------------------------------------------------------------
  // Alpha-beta against minimax.

  function Clamp(x: int, lo: int, hi: int): int
  {
    Min(Max(x, lo), hi)
  }

  /** Inside any window -CHECKMATE <= alpha < beta <= CHECKMATE, the pruned search agrees with the
      plain one once both are clamped to the window: a fail-low below alpha, a fail-high above
      beta, and the exact minimax value in between. */
  lemma {:induction false} AlphaBetaClamp(n: Node, moves: seq<nat>, depth: nat, maximizing: bool,
                                           alpha: int, beta: int)
    requires InBounds(moves, |n.edges|)
    requires -Checkmate <= alpha < beta <= Checkmate
    ensures Clamp(AlphaBeta(n, moves, depth, maximizing, alpha, beta).value, alpha, beta) ==
            Clamp(Minimax(n, moves, depth, maximizing).value, alpha, beta)
    decreases depth, 1, 0
  {
    if depth > 0 {
      var init := SearchResult(Initial(maximizing), None);
      if maximizing {
        FoldClampMax(n, Ordered(n, moves, n.draws), depth, alpha, beta, alpha, init, init);
      } else {
        FoldClampMin(n, Ordered(n, moves, n.draws), depth, alpha, beta, beta, init, init);
      }
    }
  }

  /** AlphaBetaClamp for the child reached by move m. */
  lemma {:induction false} ChildClamp(n: Node, m: nat, depth: nat, maximizing: bool, alpha: int, beta: int)
    requires 0 < depth && m < |n.edges|
    requires -Checkmate <= alpha < beta <= Checkmate
    ensures Clamp(PrunedChildValue(n, m, depth, maximizing, alpha, beta), alpha, beta) ==
            Clamp(ChildValue(n, m, depth, maximizing), alpha, beta)
    decreases depth, 0, 0
  {
    var child := n.edges[m].child;
    AlphaBetaClamp(child, AllMoves(child), depth - 1, !maximizing, alpha, beta);
  }

  /** The arithmetic of one turn of FoldClamp at a maximising node: best values M (pruned) and
      m (plain), child values e (pruned, searched in the window (Max(lo, M), hi)) and v (plain). */
  lemma ClampStepMax(lo: int, hi: int, M: int, m: int, e: int, v: int)
    requires lo < hi && Max(lo, M) < hi
    requires Clamp(M, lo, hi) == Clamp(m, lo, hi)
    requires Clamp(e, Max(lo, M), hi) == Clamp(v, Max(lo, M), hi)
    ensures var M' := if e > M then e else M;
      var m' := if v > m then v else m;
      Max(Max(lo, M), e) == Max(lo, M') &&
      (Max(Max(lo, M), e) >= hi ==> v >= hi && M' >= hi) &&
      Clamp(M', lo, hi) == Clamp(m', lo, hi)
  {
  }

  /** The same at a minimising node, where the window is (lo, Min(hi, M)). */
  lemma ClampStepMin(lo: int, hi: int, M: int, m: int, e: int, v: int)
    requires lo < hi && lo < Min(hi, M)
    requires Clamp(M, lo, hi) == Clamp(m, lo, hi)
    requires Clamp(e, lo, Min(hi, M)) == Clamp(v, lo, Min(hi, M))
    ensures var M' := if e < M then e else M;
      var m' := if v < m then v else m;
      Min(Min(hi, M), e) == Min(hi, M') &&
      (Min(Min(hi, M), e) <= lo ==> v <= lo && M' <= lo) &&
      Clamp(M', lo, hi) == Clamp(m', lo, hi)
  {
  }

  /** The loop invariant behind AlphaBetaClamp at a maximising node called with the window
      (lo, hi): alpha is lo pushed up by the best value so far, and the two best values agree up
      to clamping. */
  lemma {:induction false} FoldClampMax(n: Node, order: seq<nat>, depth: nat, lo: int, hi: int,
                                         alpha: int, pruned: SearchResult, plain: SearchResult)
    requires 0 < depth && InBounds(order, |n.edges|)
    requires Bounded(pruned.value) && Bounded(plain.value)
    requires -Checkmate <= lo < hi <= Checkmate
    requires alpha == Max(lo, pruned.value) && alpha < hi
    requires Clamp(pruned.value, lo, hi) == Clamp(plain.value, lo, hi)
    ensures Clamp(AlphaBetaFold(n, order, depth, true, alpha, hi, pruned).value, lo, hi) ==
            Clamp(MinimaxFold(n, order, depth, true, plain).value, lo, hi)
    decreases depth, 0, |order|
  {
    if order != [] {
      var m := order[0];
      var e := PrunedChildValue(n, m, depth, true, alpha, hi);
      var v := ChildValue(n, m, depth, true);
      ChildClamp(n, m, depth, true, alpha, hi);
      ClampStepMax(lo, hi, pruned.value, plain.value, e, v);
      var pruned' := Improve(pruned, e, m, true);
      var plain' := Improve(plain, v, m, true);
      var rest := order[1..];
      if hi <= Max(alpha, e) {
        // The cut: the child already reaches past the window, and so does the plain loop.
        FoldKeepsBest(n, rest, depth, true, plain');
      } else {
        FoldClampMax(n, rest, depth, lo, hi, Max(alpha, e), pruned', plain');
      }
    }
  }

  /** The same at a minimising node, where beta is hi pushed down by the best value so far. */
  lemma {:induction false} FoldClampMin(n: Node, order: seq<nat>, depth: nat, lo: int, hi: int,
                                         beta: int, pruned: SearchResult, plain: SearchResult)
    requires 0 < depth && InBounds(order, |n.edges|)
    requires Bounded(pruned.value) && Bounded(plain.value)
    requires -Checkmate <= lo < hi <= Checkmate
    requires beta == Min(hi, pruned.value) && lo < beta
    requires Clamp(pruned.value, lo, hi) == Clamp(plain.value, lo, hi)
    ensures Clamp(AlphaBetaFold(n, order, depth, false, lo, beta, pruned).value, lo, hi) ==
            Clamp(MinimaxFold(n, order, depth, false, plain).value, lo, hi)
    decreases depth, 0, |order|
  {
    if order != [] {
      var m := order[0];
      var e := PrunedChildValue(n, m, depth, false, lo, beta);
      var v := ChildValue(n, m, depth, false);
      ChildClamp(n, m, depth, false, lo, beta);
      ClampStepMin(lo, hi, pruned.value, plain.value, e, v);
      var pruned' := Improve(pruned, e, m, false);
      var plain' := Improve(plain, v, m, false);
      var rest := order[1..];
      if Min(beta, e) <= lo {
        FoldKeepsBest(n, rest, depth, false, plain');
      } else {
        FoldClampMin(n, rest, depth, lo, hi, Min(beta, e), pruned', plain');
      }
    }
  }

  /** At the full window (-CHECKMATE, CHECKMATE) used at the root, the two loops give the same
      value AND the same move. */
  lemma {:induction false} FoldRoot(n: Node, order: seq<nat>, depth: nat, maximizing: bool,
                                     alpha: int, beta: int, acc: SearchResult)
    requires 0 < depth && InBounds(order, |n.edges|) && Bounded(acc.value)
    requires maximizing ==> beta == Checkmate && alpha == acc.value
    requires !maximizing ==> alpha == -Checkmate && beta == acc.value
    requires alpha < beta
    ensures AlphaBetaFold(n, order, depth, maximizing, alpha, beta, acc) ==
            MinimaxFold(n, order, depth, maximizing, acc)
    decreases |order|
  {
    if order != [] {
      var m := order[0];
      var e := PrunedChildValue(n, m, depth, maximizing, alpha, beta);
      var v := ChildValue(n, m, depth, maximizing);
      ChildClamp(n, m, depth, maximizing, alpha, beta);
      var next := Improve(acc, e, m, maximizing);
      var alpha' := if maximizing then Max(alpha, e) else alpha;
      var beta' := if maximizing then beta else Min(beta, e);
      var rest := order[1..];
      if beta' <= alpha' {
        assert e == v && next == Improve(acc, v, m, maximizing);
        FoldSaturated(n, rest, depth, maximizing, next);
      } else {
        assert next == Improve(acc, v, m, maximizing);
        FoldRoot(n, rest, depth, maximizing, alpha', beta', next);
      }
    }
  }

  /** Alpha-beta from the root window is exactly minimax: same value, same move. */
  lemma AlphaBetaIsMinimax(n: Node, moves: seq<nat>, depth: nat, maximizing: bool)
    requires InBounds(moves, |n.edges|)
    ensures AlphaBeta(n, moves, depth, maximizing, -Checkmate, Checkmate) ==
            Minimax(n, moves, depth, maximizing)
  {
    if depth > 0 {
      FoldRoot(n, Ordered(n, moves, n.draws), depth, maximizing, -Checkmate, Checkmate,
               SearchResult(Initial(maximizing), None));
    }
  }

  // ---------------------------------------------------------------------------
  // findBestMove.

  /** With the same random numbers, findBestMove returns the same move with and without
      pruning. */
  lemma PruningKeepsMove(root: Node, rootDraws: seq<nat>, depth: nat)
    ensures BestMove(root, rootDraws, depth, true) == BestMove(root, rootDraws, depth, false)
  {
    AlphaBetaIsMinimax(root, RootMoves(root, rootDraws), depth, root.pos.whiteToMove);
  }

  /** findMoveMiniMax reports no move exactly when every searched child is worth the starting
      -CHECKMATE / CHECKMATE (in particular when there is no child at all). */
  lemma MinimaxNoMove(n: Node, moves: seq<nat>, depth: nat, maximizing: bool)
    requires 0 < depth && InBounds(moves, |n.edges|)
    ensures var order := Ordered(n, moves, n.draws);
      Minimax(n, moves, depth, maximizing).best.None? <==>
      forall i :: 0 <= i < |order| ==> ChildValue(n, order[i], depth, maximizing) == Initial(maximizing)
  {
    MinimaxNode(n, moves, depth, maximizing);
    var r := Minimax(n, moves, depth, maximizing);
    var order := Ordered(n, moves, n.draws);
    if r.best.None? {
      forall i | 0 <= i < |order|
        ensures ChildValue(n, order[i], depth, maximizing) == Initial(maximizing)
      {
        assert AtLeast(maximizing, r.value, ChildValue(n, order[i], depth, maximizing));
      }
    } else {
      var i :| 0 <= i < |order| && order[i] == r.best.value &&
        ChildValue(n, order[i], depth, maximizing) == r.value;
      assert ChildValue(n, order[i], depth, maximizing) != Initial(maximizing);
    }
  }

  /** findBestMove returns nothing at depth 0; otherwise it returns what findMoveMiniMax reports
      at the root for the root list (so MinimaxNode and MinimaxNoMove describe it), whichever
      algorithm is chosen. */
  lemma BestMoveLaws(root: Node, rootDraws: seq<nat>, depth: nat, pruning: bool)
    ensures depth == 0 ==> BestMove(root, rootDraws, depth, pruning) == None
    ensures BestMove(root, rootDraws, depth, pruning) ==
            Minimax(root, RootMoves(root, rootDraws), depth, root.pos.whiteToMove).best
  {
    PruningKeepsMove(root, rootDraws, depth);
  }
}
