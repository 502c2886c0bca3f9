/**
 * The search engine's static evaluator, in centipawns from White's point of view: material plus
 * piece-square bonuses, a mobility term, a check term, and fixed scores for finished games.
 */
module Evaluation {
  import opened Chess
  import opened BoardSums

  /** Material values in centipawns; the king's is large so that losing it outweighs everything else. */
  function PieceValue(t: PieceType): int {
    match t
    case Pawn => 100
    case Knight => 320
    case Bishop => 330
    case Rook => 500
    case Queen => 900
    case King => 20000
  }

  // Piece-square tables for White, row by row (row 0 is rank 8), each flattened to 64 entries.
  const PawnTable: seq<int> := [
      0,   0,   0,   0,   0,   0,   0,   0,
     50,  50,  50,  50,  50,  50,  50,  50,
     10,  10,  20,  30,  30,  20,  10,  10,
      5,   5,  10,  25,  25,  10,   5,   5,
      0,   0,   0,  20,  20,   0,   0,   0,
      5,  -5, -10,   0,   0, -10,  -5,   5,
      5,  10,  10, -20, -20,  10,  10,   5,
      0,   0,   0,   0,   0,   0,   0,   0]

  const KnightTable: seq<int> := [
    -50, -40, -30, -30, -30, -30, -40, -50,
    -40, -20,   0,   0,   0,   0, -20, -40,
    -30,   0,  10,  15,  15,  10,   0, -30,
    -30,   5,  15,  20,  20,  15,   5, -30,
    -30,   0,  15,  20,  20,  15,   0, -30,
    -30,   5,  10,  15,  15,  10,   5, -30,
    -40, -20,   0,   5,   5,   0, -20, -40,
    -50, -40, -30, -30, -30, -30, -40, -50]

  const BishopTable: seq<int> := [
    -20, -10, -10, -10, -10, -10, -10, -20,
    -10,   0,   0,   0,   0,   0,   0, -10,
    -10,   0,  10,  10,  10,  10,   0, -10,
    -10,   5,   5,  10,  10,   5,   5, -10,
    -10,   0,   5,  10,  10,   5,   0, -10,
    -10,   5,   5,   5,   5,   5,   5, -10,
    -10,   0,   5,   0,   0,   5,   0, -10,
    -20, -10, -10, -10, -10, -10, -10, -20]

  const RookTable: seq<int> := [
      0,   0,   0,   0,   0,   0,   0,   0,
      5,  10,  10,  10,  10,  10,  10,   5,
     -5,   0,   0,   0,   0,   0,   0,  -5,
     -5,   0,   0,   0,   0,   0,   0,  -5,
     -5,   0,   0,   0,   0,   0,   0,  -5,
     -5,   0,   0,   0,   0,   0,   0,  -5,
     -5,   0,   0,   0,   0,   0,   0,  -5,
      0,   0,   0,   5,   5,   0,   0,   0]

  // Row 4 ends in -5 where its mirror image would have 0; the table is not left-right symmetric.
  const QueenTable: seq<int> := [
    -20, -10, -10,  -5,  -5, -10, -10, -20,
    -10,   0,   0,   0,   0,   0,   0, -10,
    -10,   0,   5,   5,   5,   5,   0, -10,
     -5,   0,   5,   5,   5,   5,   0,  -5,
      0,   0,   5,   5,   5,   5,   0,  -5,
    -10,   5,   5,   5,   5,   5,   0, -10,
    -10,   0,   5,   0,   0,   0,   0, -10,
    -20, -10, -10,  -5,  -5, -10, -10, -20]

  const KingTable: seq<int> := [
    -30, -40, -40, -50, -50, -40, -40, -30,
    -30, -40, -40, -50, -50, -40, -40, -30,
    -30, -40, -40, -50, -50, -40, -40, -30,
    -30, -40, -40, -50, -50, -40, -40, -30,
    -20, -30, -30, -40, -40, -30, -30, -20,
    -10, -20, -20, -20, -20, -20, -20, -10,
     20,  20,   0,   0,   0,   0,  20,  20,
     20,  30,  10,   0,   0,  10,  30,  20]

  function Table(t: PieceType): (table: seq<int>)
    ensures |table| == 64
  {
    match t
    case Pawn => PawnTable
    case Knight => KnightTable
    case Bishop => BishopTable
    case Rook => RookTable
    case Queen => QueenTable
    case King => KingTable
  }

  /** White's bonus for a piece of type t on row i, column j; zero off the board. */
  function PositionBonus(t: PieceType, i: int, j: int): int {
    if 0 <= i < 8 && 0 <= j < 8 then Table(t)[8 * i + j] else 0
  }

  /**
   * A square's contribution on row i: White adds value plus its bonus at (i, j), Black subtracts
   * value plus the bonus read from the rank-flipped row 7 - i.
   */
  function SquareScore(sq: Square, i: int, j: int): int {
    match sq
    case None => 0
    case Some(p) =>
      if p.color == White then PieceValue(p.kind) + PositionBonus(p.kind, i, j)
      else -(PieceValue(p.kind) + PositionBonus(p.kind, 7 - i, j))
  }

  /** The material-and-placement part of the evaluation. */
  function MaterialAndPlacement(b: Board): int {
    BoardSum(b, SquareScore)
  }

  /** Colour-mirroring a board negates its material-and-placement sum exactly. */
  lemma MirrorNegatesBoard(b: Board)
    ensures MaterialAndPlacement(Mirror(b)) == -MaterialAndPlacement(b)
  {
    var b' := Mirror(b);
    forall i, j | 0 <= i < 8 && 0 <= j < 8
      ensures SquareScore(b'[i][j], i, j) == -SquareScore(b[7 - i][j], 7 - i, j)
    {
    }
    BoardSumReflected(b, b', SquareScore);
  }

  const MateScore: int := 10000
  const MobilityWeight: int := 2
  const CheckPenalty: int := 50

  /** +1 when White is to move, -1 when Black is. */
  function Sign(c: Color): int {
    if c == White then 1 else -1
  }

  /**
   * The evaluation of a position. A checkmated side to move has lost; any draw scores 0; otherwise
   * the board sum, plus two points per legal move for the side to move, minus fifty if it is in check.
   */
  function Evaluate(g: Game): (score: int)
    ensures g.checkmate ==> score == -Sign(g.turn) * MateScore
    ensures !g.checkmate && g.draw ==> score == 0
    ensures !g.GameOver() ==>
      score == MaterialAndPlacement(g.board)
               + Sign(g.turn) * (MobilityWeight * |g.moves| - (if g.inCheck then CheckPenalty else 0))
  {
    if g.checkmate then
      (if g.turn == White then -10000 else 10000)
    else if g.draw then
      0
    else
      var score := MaterialAndPlacement(g.board);
      var mobility := |g.moves| * 2;
      var score := score + (if g.turn == White then mobility else -mobility);
      if g.inCheck then score + (if g.turn == White then -50 else 50) else score
  }

  /**
   * Two positions that are colour mirrors of each other (board mirrored, other side to move, same
   * terminal and check status, same number of legal moves) evaluate to exact negations.
   */
  lemma EvaluateMirror(g: Game, h: Game)
    requires h.board == Mirror(g.board) && h.turn == g.turn.Opponent()
    requires h.checkmate == g.checkmate && h.draw == g.draw && h.inCheck == g.inCheck
    requires |h.moves| == |g.moves|
    ensures Evaluate(h) == -Evaluate(g)
  {
    MirrorNegatesBoard(g.board);
  }
}
