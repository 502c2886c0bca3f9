/**
 * The move chooser of the search-based computer opponent: the difficulty level fixes the search
 * depth, and the easiest level plays a uniformly drawn legal move half of the time.
 *
 * The two draws of the random number generator become parameters: `coin` is the outcome of the
 * "one time in two" test and `pick` is the index drawn among the legal moves.
 */
module EngineAI {
  import opened Wrappers
  import opened Chess
  import opened ExtInts
  import opened MoveOrder
  import opened Search

  /** The tiers in increasing order of strength. */
  function Level(d: Difficulty): (n: nat)
    ensures n < 4
  {
    match d
    case Easy => 0
    case Medium => 1
    case Hard => 2
    case Expert => 3
  }

  /** How many plies each tier searches. */
  function SearchDepth(d: Difficulty): (depth: nat)
    ensures 1 <= depth <= 4
  {
    match d
    case Easy => 1
    case Medium => 2
    case Hard => 3
    case Expert => 4
  }

  /** A stronger tier always searches strictly deeper. */
  lemma DeeperForStrongerTier(d: Difficulty, e: Difficulty)
    ensures Level(d) < Level(e) <==> SearchDepth(d) < SearchDepth(e)
  {
  }

  /** The search as the chooser starts it: full window, White maximising. */
  function RootSearch(g: Game, depth: nat): (r: Scored)
    ensures depth == 0 || g.GameOver() ==> r.move == None
  {
    AlphaBeta(g, depth, NegInf, PosInf, g.turn == White)
  }

  /** Whatever move the root search names is one of the position's legal moves. */
  lemma SearchMoveIsLegal(g: Game, depth: nat)
    ensures RootSearch(g, depth).move.Some? ==> RootSearch(g, depth).move.value in SanList(g)
  {
    var maximizing := g.turn == White;
    var r := RootSearch(g, depth);
    if depth > 0 && !g.GameOver() && r.move.Some? {
      var ms := OrderMoves(g.moves);
      var vals := ChildValues(ms, depth - 1, !maximizing);
      SearchPicksFirstBest(g, depth, maximizing);
      assert r.move == FirstMoveWithValue(ms, vals, r.score);
      var k :| 0 <= k < |vals| && vals[k] == r.score && r.move.value == ms[k].move.san;
      OrderMovesSameMoves(g.moves, ms[k]);
      var j :| 0 <= j < |g.moves| && g.moves[j] == ms[k];
      assert SanList(g)[j] == r.move.value;
    }
  }

  /**
   * The computer's move: none when there is no legal move; at the easiest tier, when the coin says
   * so, the drawn legal move; otherwise the move the search at the tier's depth names.
   */
  function GenerateAIMove(g: Game, d: Difficulty, coin: bool, pick: nat): (r: Option<string>)
    ensures |g.moves| == 0 ==> r == None
    ensures |g.moves| > 0 && d == Easy && coin ==> r == Some(g.moves[pick % |g.moves|].move.san)
    ensures r.Some? ==> r.value in SanList(g)
  {
    if |g.moves| == 0 then None
    else if d == Easy && coin then Some(g.moves[pick % |g.moves|].move.san)
    else
      SearchMoveIsLegal(g, SearchDepth(d));
      RootSearch(g, SearchDepth(d)).move
  }

  /**
   * When the search decides, in a game tree where every unfinished position has a move, the search
   * never comes back empty-handed, and the chosen move is the first one, in capture-first order,
   * whose own minimax value equals the value of the position at the tier's depth, that is the best
   * score the side to move can force.
   */
  lemma AIMoveIsFirstBest(g: Game, d: Difficulty, coin: bool, pick: nat)
    requires Consistent(g) && !g.GameOver()
    requires !(d == Easy && coin)
    ensures var depth, maximizing := SearchDepth(d), g.turn == White;
      var ms := OrderMoves(g.moves);
      && GenerateAIMove(g, d, coin, pick).Some?
      && GenerateAIMove(g, d, coin, pick) == FirstMoveWithValue(ms, ChildValues(ms, depth - 1, !maximizing), Minimax(g, depth, maximizing))
  {
    var depth, maximizing := SearchDepth(d), g.turn == White;
    var ms := OrderMoves(g.moves);
    var vals := ChildValues(ms, depth - 1, !maximizing);
    var s := RootSearch(g, depth);
    assert GenerateAIMove(g, d, coin, pick) == s.move;
    SearchPicksFirstBest(g, depth, maximizing);
    ConsistentValuesAreFinite(g, depth, maximizing);
    assert s.move == FirstMoveWithValue(ms, vals, s.score);
    assert |vals| > 0 by {
      OrderMovesPermutes(g.moves);
      assert |multiset(ms)| == |multiset(g.moves)|;
    }
    BestIsExtremum(vals, maximizing);
  }

  /**
   * A finished game (checkmate or any draw) yields no move from the search tiers, even when the
   * rules still list legal moves, as after a threefold repetition.
   */
  lemma FinishedGameYieldsNoSearchMove(g: Game, d: Difficulty, coin: bool, pick: nat)
    requires g.GameOver() && !(d == Easy && coin)
    ensures GenerateAIMove(g, d, coin, pick) == None
  {
  }

  /**
   * In a game tree where every unfinished position has a move, the chooser comes back empty-handed
   * exactly when there is no legal move, or when the game is over and the search decides.
   */
  lemma AIMoveNoneExactly(g: Game, d: Difficulty, coin: bool, pick: nat)
    requires Consistent(g)
    ensures GenerateAIMove(g, d, coin, pick).None? <==> |g.moves| == 0 || (g.GameOver() && !(d == Easy && coin))
  {
    if |g.moves| > 0 && !(d == Easy && coin) && !g.GameOver() {
      AIMoveIsFirstBest(g, d, coin, pick);
    }
  }
}
