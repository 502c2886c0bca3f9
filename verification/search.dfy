/**
 * The computer opponent's search: a depth-bounded, fail-soft minimax search with alpha-beta pruning
 * over the centipawn evaluator, captures tried first, and the difficulty level choosing the depth.
 *
 * Each recursive call explores a copy of the position, so a branch is simply the child node of the
 * game tree. White maximises the score and Black minimises it.
 */
module Search {
  import opened Wrappers
  import opened Chess
  import opened Seqs
  import opened ExtInts
  import opened Evaluation
  import opened MoveOrder

  /**
   * The best of a list of scores for the side that chooses: the maximum for the maximising side,
   * the minimum for the other, and the starting bound (-infinity or +infinity) when there are none.
   */
  function Best(vals: seq<ExtInt>, maximizing: bool): (best: ExtInt)
    decreases |vals|
  {
    if |vals| == 0 then (if maximizing then NegInf else PosInf)
    else
      var prev := Best(vals[..|vals| - 1], maximizing);
      if maximizing then Max(prev, vals[|vals| - 1]) else Min(prev, vals[|vals| - 1])
  }

  /** Best is the extremum of the list: one of its elements, and bounding every element. */
  lemma {:induction false} BestIsExtremum(vals: seq<ExtInt>, maximizing: bool)
    ensures |vals| == 0 ==> Best(vals, maximizing) == (if maximizing then NegInf else PosInf)
    ensures |vals| > 0 ==> Best(vals, maximizing) in vals
    ensures forall k :: 0 <= k < |vals| ==>
      if maximizing then Le(vals[k], Best(vals, maximizing)) else Le(Best(vals, maximizing), vals[k])
    decreases |vals|
  {
    if |vals| > 0 {
      var init := vals[..|vals| - 1];
      BestIsExtremum(init, maximizing);
      TotalOrder();
      forall k | 0 <= k < |vals| - 1
        ensures vals[k] == init[k]
      {
      }
    }
  }

  /** Plain minimax without pruning: the reference value that the pruned search must reproduce. */
  function Minimax(g: Game, depth: nat, maximizing: bool): (v: ExtInt)
    decreases depth, 1
  {
    if depth == 0 || g.GameOver() then Fin(Evaluate(g))
    else Best(ChildValues(g.moves, depth - 1, !maximizing), maximizing)
  }

  /** The plain minimax value of each branch, in list order. */
  function ChildValues(ms: seq<Branch>, depth: nat, maximizing: bool): (vals: seq<ExtInt>)
    ensures |vals| == |ms|
    decreases depth + 1, 0
  {
    seq(|ms|, k requires 0 <= k < |ms| => Minimax(ms[k].next, depth, maximizing))
  }

  /** A search result: the score and the SAN of the move that reached it, if any. */
  datatype Scored = Scored(score: ExtInt, move: Option<string>)

  /** The pruned search, as the engine runs it. */
  function AlphaBeta(g: Game, depth: nat, alpha: ExtInt, beta: ExtInt, maximizing: bool): (r: Scored)
    decreases depth, 1
  {
    if depth == 0 || g.GameOver() then Scored(Fin(Evaluate(g)), None)
    else if maximizing then MaxLoop(OrderMoves(g.moves), 0, depth - 1, alpha, beta, NegInf, None)
    else MinLoop(OrderMoves(g.moves), 0, depth - 1, alpha, beta, PosInf, None)
  }

  /**
   * The maximising side's loop from move i on: a strictly higher score replaces the best so far,
   * alpha rises to the best so far, and the loop stops once beta <= alpha.
   */
  function MaxLoop(ms: seq<Branch>, i: nat, depth: nat, alpha: ExtInt, beta: ExtInt, best: ExtInt, bestMove: Option<string>): (r: Scored)
    requires i <= |ms|
    decreases depth + 1, 0, |ms| - i
  {
    if i == |ms| then Scored(best, bestMove)
    else
      var score := AlphaBeta(ms[i].next, depth, alpha, beta, false).score;
      var improved := Lt(best, score);
      var best' := if improved then score else best;
      var bestMove' := if improved then Some(ms[i].move.san) else bestMove;
      var alpha' := Max(alpha, best');
      if Le(beta, alpha') then Scored(best', bestMove')
      else MaxLoop(ms, i + 1, depth, alpha', beta, best', bestMove')
  }

  /**
   * The minimising side's loop from move i on: a strictly lower score replaces the best so far,
   * beta falls to the best so far, and the loop stops once beta <= alpha.
   */
  function MinLoop(ms: seq<Branch>, i: nat, depth: nat, alpha: ExtInt, beta: ExtInt, best: ExtInt, bestMove: Option<string>): (r: Scored)
    requires i <= |ms|
    decreases depth + 1, 0, |ms| - i
  {
    if i == |ms| then Scored(best, bestMove)
    else
      var score := AlphaBeta(ms[i].next, depth, alpha, beta, true).score;
      var improved := Lt(score, best);
      var best' := if improved then score else best;
      var bestMove' := if improved then Some(ms[i].move.san) else bestMove;
      var beta' := Min(beta, best');
      if Le(beta', alpha) then Scored(best', bestMove')
      else MinLoop(ms, i + 1, depth, alpha, beta', best', bestMove')
  }

  /** At depth 0 or in a finished game the search returns the static evaluation and no move. */
  lemma LeafIsStatic(g: Game, depth: nat, alpha: ExtInt, beta: ExtInt, maximizing: bool)
    requires depth == 0 || g.GameOver()
    ensures AlphaBeta(g, depth, alpha, beta, maximizing) == Scored(Fin(Evaluate(g)), None)
    ensures Minimax(g, depth, maximizing) == Fin(Evaluate(g))
  {
  }

  /**
   * The fail-soft guarantee of a search result r for the true value v in the window (alpha, beta):
   * a result at or below alpha is an upper bound, a result inside the window is exact, and a
   * result at or above beta is a lower bound.
   */
  predicate FailSoft(r: ExtInt, v: ExtInt, alpha: ExtInt, beta: ExtInt) {
    && (Le(r, alpha) ==> Le(v, r))
    && (Lt(alpha, r) && Lt(r, beta) ==> r == v)
    && (Le(beta, r) ==> Le(r, v))
  }

  /** Two score lists with the same elements have the same best. */
  lemma BestOfSameElements(a: seq<ExtInt>, b: seq<ExtInt>, maximizing: bool)
    requires forall x :: x in a <==> x in b
    ensures Best(a, maximizing) == Best(b, maximizing)
  {
    TotalOrder();
    BestIsExtremum(a, maximizing);
    BestIsExtremum(b, maximizing);
    assert |a| > 0 ==> a[0] in b;
    assert |b| > 0 ==> b[0] in a;
  }

  /** Trying the moves in capture-first order does not change the plain minimax value. */
  lemma OrderingKeepsValue(ms: seq<Branch>, depth: nat, childMaximizing: bool, maximizing: bool)
    ensures Best(ChildValues(OrderMoves(ms), depth, childMaximizing), maximizing)
         == Best(ChildValues(ms, depth, childMaximizing), maximizing)
  {
    var ordered := OrderMoves(ms);
    OrderMovesPermutes(ms);
    var a := ChildValues(ordered, depth, childMaximizing);
    var b := ChildValues(ms, depth, childMaximizing);
    forall x | x in a
      ensures x in b
    {
      var k :| 0 <= k < |a| && a[k] == x;
      assert ordered[k] in multiset(ms);
      var j :| 0 <= j < |ms| && ms[j] == ordered[k];
      assert b[j] == x;
    }
    forall x | x in b
      ensures x in a
    {
      var j :| 0 <= j < |b| && b[j] == x;
      assert ms[j] in multiset(ordered);
      var k :| 0 <= k < |ordered| && ordered[k] == ms[j];
      assert a[k] == x;
    }
    BestOfSameElements(a, b, maximizing);
  }

  /** Extending a prefix by one score folds that score into the best. */
  lemma BestOfLonger(vals: seq<ExtInt>, i: nat, maximizing: bool)
    requires i < |vals|
    ensures Best(vals[..i + 1], maximizing)
         == if maximizing then Max(Best(vals[..i], maximizing), vals[i]) else Min(Best(vals[..i], maximizing), vals[i])
  {
    assert vals[..i + 1][..i] == vals[..i];
  }

  /**
   * Alpha-beta is sound: for any window alpha < beta, the pruned search's score stands in the
   * fail-soft relation to the plain minimax value at the same depth.
   */
  lemma {:induction false} AlphaBetaFailSoft(g: Game, depth: nat, alpha: ExtInt, beta: ExtInt, maximizing: bool)
    requires Lt(alpha, beta)
    ensures FailSoft(AlphaBeta(g, depth, alpha, beta, maximizing).score, Minimax(g, depth, maximizing), alpha, beta)
    decreases depth, 1
  {
    if depth > 0 && !g.GameOver() {
      var ms := OrderMoves(g.moves);
      var vals := ChildValues(ms, depth - 1, !maximizing);
      OrderingKeepsValue(g.moves, depth - 1, !maximizing, maximizing);
      assert Minimax(g, depth, maximizing) == Best(vals, maximizing);
      var r: ExtInt;
      if maximizing {
        r := MaxLoop(ms, 0, depth - 1, alpha, beta, NegInf, None).score;
        MaxLoopFailSoft(ms, 0, depth - 1, alpha, alpha, beta, NegInf, None);
        assert FailSoft(r, Best(ChildValues(ms, depth - 1, false), true), alpha, beta);
      } else {
        r := MinLoop(ms, 0, depth - 1, alpha, beta, PosInf, None).score;
        MinLoopFailSoft(ms, 0, depth - 1, alpha, beta, beta, PosInf, None);
        assert FailSoft(r, Best(ChildValues(ms, depth - 1, true), false), alpha, beta);
      }
      assert FailSoft(r, Best(vals, maximizing), alpha, beta);
      assert r == AlphaBeta(g, depth, alpha, beta, maximizing).score;
    }
  }

  /**
   * The maximising loop keeps the invariant "best so far is exact once it exceeds the original
   * alpha, and an upper bound of the prefix's value otherwise", which yields fail-soft at the end.
   */
  lemma {:induction false} MaxLoopFailSoft(ms: seq<Branch>, i: nat, depth: nat, alpha0: ExtInt, alpha: ExtInt, beta: ExtInt,
                                            best: ExtInt, bestMove: Option<string>)
    requires i <= |ms|
    requires Lt(alpha0, beta) && Lt(best, beta) && alpha == Max(alpha0, best)
    requires Le(best, alpha0) ==> Le(Best(ChildValues(ms, depth, false)[..i], true), best)
    requires Lt(alpha0, best) ==> Best(ChildValues(ms, depth, false)[..i], true) == best
    ensures FailSoft(MaxLoop(ms, i, depth, alpha, beta, best, bestMove).score,
                     Best(ChildValues(ms, depth, false), true), alpha0, beta)
    decreases depth + 1, 0, |ms| - i
  {
    TotalOrder();
    var vals := ChildValues(ms, depth, false);
    if i == |ms| {
      assert vals[..i] == vals;
    } else {
      var score := AlphaBeta(ms[i].next, depth, alpha, beta, false).score;
      AlphaBetaFailSoft(ms[i].next, depth, alpha, beta, false);
      BestOfLonger(vals, i, true);
      var improved := Lt(best, score);
      var best' := if improved then score else best;
      var bestMove' := if improved then Some(ms[i].move.san) else bestMove;
      var alpha' := Max(alpha, best');
      if !Le(beta, alpha') {
        MaxLoopFailSoft(ms, i + 1, depth, alpha0, alpha', beta, best', bestMove');
      } else {
        BestIsExtremum(vals, true);
      }
    }
  }

  /** The minimising loop's invariant, the mirror image of the maximising one. */
  lemma {:induction false} MinLoopFailSoft(ms: seq<Branch>, i: nat, depth: nat, alpha: ExtInt, beta0: ExtInt, beta: ExtInt,
                                            best: ExtInt, bestMove: Option<string>)
    requires i <= |ms|
    requires Lt(alpha, beta0) && Lt(alpha, best) && beta == Min(beta0, best)
    requires Le(beta0, best) ==> Le(best, Best(ChildValues(ms, depth, true)[..i], false))
    requires Lt(best, beta0) ==> Best(ChildValues(ms, depth, true)[..i], false) == best
    ensures FailSoft(MinLoop(ms, i, depth, alpha, beta, best, bestMove).score,
                     Best(ChildValues(ms, depth, true), false), alpha, beta0)
    decreases depth + 1, 0, |ms| - i
  {
    TotalOrder();
    var vals := ChildValues(ms, depth, true);
    if i == |ms| {
      assert vals[..i] == vals;
    } else {
      var score := AlphaBeta(ms[i].next, depth, alpha, beta, true).score;
      AlphaBetaFailSoft(ms[i].next, depth, alpha, beta, true);
      BestOfLonger(vals, i, false);
      var improved := Lt(score, best);
      var best' := if improved then score else best;
      var bestMove' := if improved then Some(ms[i].move.san) else bestMove;
      var beta' := Min(beta, best');
      if !Le(beta', alpha) {
        MinLoopFailSoft(ms, i + 1, depth, alpha, beta0, beta', best', bestMove');
      } else {
        BestIsExtremum(vals, false);
      }
    }
  }

  /** Pruning equivalence: with the window (-infinity, +infinity) the pruned score is the minimax value. */
  lemma AlphaBetaEqualsMinimax(g: Game, depth: nat, maximizing: bool)
    ensures AlphaBeta(g, depth, NegInf, PosInf, maximizing).score == Minimax(g, depth, maximizing)
  {
    AlphaBetaFailSoft(g, depth, NegInf, PosInf, maximizing);
  }

  /** The SAN of the first move, in list order, whose value is v; None when no move has it. */
  function FirstMoveWithValue(ms: seq<Branch>, vals: seq<ExtInt>, v: ExtInt): (r: Option<string>)
    requires |vals| <= |ms|
    ensures r.Some? <==> v in vals
    ensures r.Some? ==> exists k :: 0 <= k < |vals| && vals[k] == v && r.value == ms[k].move.san
                                   && forall j :: 0 <= j < k ==> vals[j] != v
  {
    if v in vals then Some(ms[FirstIndex(vals, v)].move.san) else None
  }

  /**
   * What the root search returns for the list of moves ms whose values are vals: the best value,
   * and the first move reaching it (no move when the value is the starting bound).
   */
  predicate RootResult(ms: seq<Branch>, vals: seq<ExtInt>, r: Scored, maximizing: bool)
    requires |vals| <= |ms|
  {
    && r.score == Best(vals, maximizing)
    && r.move == if r.score == (if maximizing then NegInf else PosInf) then None else FirstMoveWithValue(ms, vals, r.score)
  }

  /**
   * The maximising side's loop at the root, where the window is (-infinity, +infinity): the best so
   * far is always the exact value of the moves tried, and the move kept is the first one reaching it.
   */
  lemma {:induction false} MaxRootPicksFirstBest(ms: seq<Branch>, i: nat, depth: nat, best: ExtInt, bestMove: Option<string>)
    requires i <= |ms| && best != PosInf
    requires RootResult(ms, ChildValues(ms, depth, false)[..i], Scored(best, bestMove), true)
    ensures RootResult(ms, ChildValues(ms, depth, false), MaxLoop(ms, i, depth, best, PosInf, best, bestMove), true)
    decreases |ms| - i
  {
    var vals := ChildValues(ms, depth, false);
    if i == |ms| {
      assert vals[..i] == vals;
    } else {
      var score := AlphaBeta(ms[i].next, depth, best, PosInf, false).score;
      var r := MaxLoop(ms, i, depth, best, PosInf, best, bestMove);
      MaxRootStep(ms, i, depth, best, bestMove);
      if Lt(best, score) && score != PosInf {
        assert r == MaxLoop(ms, i + 1, depth, score, PosInf, score, Some(ms[i].move.san));
        MaxRootPicksFirstBest(ms, i + 1, depth, score, Some(ms[i].move.san));
      } else if !Lt(best, score) {
        assert r == MaxLoop(ms, i + 1, depth, best, PosInf, best, bestMove);
        MaxRootPicksFirstBest(ms, i + 1, depth, best, bestMove);
      } else {
        assert r == Scored(score, Some(ms[i].move.san));
      }
    }
  }

  /** One iteration of the maximising root loop keeps RootResult, for the whole list when it cuts off. */
  lemma MaxRootStep(ms: seq<Branch>, i: nat, depth: nat, best: ExtInt, bestMove: Option<string>)
    requires i < |ms| && best != PosInf
    requires RootResult(ms, ChildValues(ms, depth, false)[..i], Scored(best, bestMove), true)
    ensures var score := AlphaBeta(ms[i].next, depth, best, PosInf, false).score;
      && (Lt(best, score) && score == PosInf ==> RootResult(ms, ChildValues(ms, depth, false), Scored(score, Some(ms[i].move.san)), true))
      && (Lt(best, score) && score != PosInf ==> RootResult(ms, ChildValues(ms, depth, false)[..i + 1], Scored(score, Some(ms[i].move.san)), true))
      && (!Lt(best, score) ==> RootResult(ms, ChildValues(ms, depth, false)[..i + 1], Scored(best, bestMove), true))
  {
    var vals := ChildValues(ms, depth, false);
    var score := AlphaBeta(ms[i].next, depth, best, PosInf, false).score;
    var prefix, longer := vals[..i], vals[..i + 1];
    assert FailSoft(score, vals[i], best, PosInf) by {
      AlphaBetaFailSoft(ms[i].next, depth, best, PosInf, false);
    }
    assert Best(longer, true) == Max(best, vals[i]) by {
      BestOfLonger(vals, i, true);
    }
    BestIsExtremum(prefix, true);
    assert forall j :: 0 <= j < i ==> longer[j] == prefix[j];
    if Lt(best, score) {
      assert vals[i] == score;
      if score == PosInf {
        BestIsExtremum(vals, true);
        assert FirstIndex(vals, score) == i;
      } else {
        assert FirstIndex(longer, score) == i;
      }
    } else if best != NegInf {
      assert prefix[FirstIndex(prefix, best)] == longer[FirstIndex(prefix, best)];
      assert FirstIndex(longer, best) == FirstIndex(prefix, best);
    }
  }

  /** The minimising side's loop at the root, the mirror image of MaxRootPicksFirstBest. */
  lemma {:induction false} MinRootPicksFirstBest(ms: seq<Branch>, i: nat, depth: nat, best: ExtInt, bestMove: Option<string>)
    requires i <= |ms| && best != NegInf
    requires RootResult(ms, ChildValues(ms, depth, true)[..i], Scored(best, bestMove), false)
    ensures RootResult(ms, ChildValues(ms, depth, true), MinLoop(ms, i, depth, NegInf, best, best, bestMove), false)
    decreases |ms| - i
  {
    var vals := ChildValues(ms, depth, true);
    if i == |ms| {
      assert vals[..i] == vals;
    } else {
      var score := AlphaBeta(ms[i].next, depth, NegInf, best, true).score;
      var r := MinLoop(ms, i, depth, NegInf, best, best, bestMove);
      MinRootStep(ms, i, depth, best, bestMove);
      if Lt(score, best) && score != NegInf {
        assert r == MinLoop(ms, i + 1, depth, NegInf, score, score, Some(ms[i].move.san));
        MinRootPicksFirstBest(ms, i + 1, depth, score, Some(ms[i].move.san));
      } else if !Lt(score, best) {
        assert r == MinLoop(ms, i + 1, depth, NegInf, best, best, bestMove);
        MinRootPicksFirstBest(ms, i + 1, depth, best, bestMove);
      } else {
        assert r == Scored(score, Some(ms[i].move.san));
      }
    }
  }

  /** One iteration of the minimising root loop keeps RootResult, for the whole list when it cuts off. */
  lemma MinRootStep(ms: seq<Branch>, i: nat, depth: nat, best: ExtInt, bestMove: Option<string>)
    requires i < |ms| && best != NegInf
    requires RootResult(ms, ChildValues(ms, depth, true)[..i], Scored(best, bestMove), false)
    ensures var score := AlphaBeta(ms[i].next, depth, NegInf, best, true).score;
      && (Lt(score, best) && score == NegInf ==> RootResult(ms, ChildValues(ms, depth, true), Scored(score, Some(ms[i].move.san)), false))
      && (Lt(score, best) && score != NegInf ==> RootResult(ms, ChildValues(ms, depth, true)[..i + 1], Scored(score, Some(ms[i].move.san)), false))
      && (!Lt(score, best) ==> RootResult(ms, ChildValues(ms, depth, true)[..i + 1], Scored(best, bestMove), false))
  {
    var vals := ChildValues(ms, depth, true);
    var score := AlphaBeta(ms[i].next, depth, NegInf, best, true).score;
    var prefix, longer := vals[..i], vals[..i + 1];
    assert FailSoft(score, vals[i], NegInf, best) by {
      AlphaBetaFailSoft(ms[i].next, depth, NegInf, best, true);
    }
    assert Best(longer, false) == Min(best, vals[i]) by {
      BestOfLonger(vals, i, false);
    }
    BestIsExtremum(prefix, false);
    assert forall j :: 0 <= j < i ==> longer[j] == prefix[j];
    if Lt(score, best) {
      assert vals[i] == score;
      if score == NegInf {
        BestIsExtremum(vals, false);
        assert FirstIndex(vals, score) == i;
      } else {
        assert FirstIndex(longer, score) == i;
      }
    } else if best != PosInf {
      assert prefix[FirstIndex(prefix, best)] == longer[FirstIndex(prefix, best)];
      assert FirstIndex(longer, best) == FirstIndex(prefix, best);
    }
  }

  /**
   * The search as the engine starts it, with the window (-infinity, +infinity): its score is the
   * plain minimax value, and its move is the first move, in capture-first order, whose own minimax
   * value equals that score (none only when the score is the starting bound).
   */
  lemma SearchPicksFirstBest(g: Game, depth: nat, maximizing: bool)
    requires depth > 0 && !g.GameOver()
    ensures RootResult(OrderMoves(g.moves), ChildValues(OrderMoves(g.moves), depth - 1, !maximizing),
                       AlphaBeta(g, depth, NegInf, PosInf, maximizing), maximizing)
    ensures AlphaBeta(g, depth, NegInf, PosInf, maximizing).score == Minimax(g, depth, maximizing)
  {
    RootSearchUnfolds(g, depth, maximizing);
    RootFromStart(OrderMoves(g.moves), depth - 1, maximizing);
    AlphaBetaEqualsMinimax(g, depth, maximizing);
  }

  /** The side's loop over the moves at the root, from an empty best and the full window. */
  function RootLoop(ms: seq<Branch>, depth: nat, maximizing: bool): (r: Scored) {
    if maximizing then MaxLoop(ms, 0, depth, NegInf, PosInf, NegInf, None)
    else MinLoop(ms, 0, depth, NegInf, PosInf, PosInf, None)
  }

  /** At the root, the search is the side's loop over the ordered moves. */
  lemma RootSearchUnfolds(g: Game, depth: nat, maximizing: bool)
    requires depth > 0 && !g.GameOver()
    ensures AlphaBeta(g, depth, NegInf, PosInf, maximizing) == RootLoop(OrderMoves(g.moves), depth - 1, maximizing)
  {
  }

  lemma RootFromStart(ms: seq<Branch>, depth: nat, maximizing: bool)
    ensures RootResult(ms, ChildValues(ms, depth, !maximizing), RootLoop(ms, depth, maximizing), maximizing)
  {
    var vals := ChildValues(ms, depth, !maximizing);
    assert vals[..0] == [];
    BestIsExtremum(vals[..0], maximizing);
    if maximizing {
      MaxRootPicksFirstBest(ms, 0, depth, NegInf, None);
    } else {
      MinRootPicksFirstBest(ms, 0, depth, PosInf, None);
    }
  }

  /** In a tree where every unfinished position has a legal move, every minimax value is finite. */
  lemma {:induction false} ConsistentValuesAreFinite(g: Game, depth: nat, maximizing: bool)
    requires Consistent(g)
    ensures Minimax(g, depth, maximizing).Fin?
    decreases depth
  {
    if depth > 0 && !g.GameOver() {
      var vals := ChildValues(g.moves, depth - 1, !maximizing);
      forall k | 0 <= k < |vals|
        ensures vals[k].Fin?
      {
        ConsistentValuesAreFinite(g.moves[k].next, depth - 1, !maximizing);
      }
      BestIsExtremum(vals, maximizing);
    }
  }
}
