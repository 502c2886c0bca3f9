/**
 * The material count the game screen shows as the evaluation bar: pawn 1, knight and bishop 3,
 * rook 5, queen 9, king 0, added for White's pieces and subtracted for Black's. Unlike the search
 * engine's evaluator it has no positional, mobility or game-over terms.
 */
module Material {
  import opened Wrappers
  import opened Chess
  import opened BoardSums

  /** Classical material values in pawns; the king counts for nothing. */
  function MaterialValue(k: PieceType): (v: nat)
    ensures v <= 9
    ensures v == 0 <==> k == King
  {
    match k
    case Pawn => 1
    case Knight => 3
    case Bishop => 3
    case Rook => 5
    case Queen => 9
    case King => 0
  }

  /** What one square adds to the balance: the value of a White piece, minus that of a Black one. */
  function MaterialScore(sq: Square, i: int, j: int): (s: int)
    ensures -9 <= s <= 9
    ensures s > 0 ==> sq.Some? && sq.value.color == White
    ensures s < 0 ==> sq.Some? && sq.value.color == Black
  {
    if sq.None? then 0
    else if sq.value.color == White then MaterialValue(sq.value.kind) as int
    else assert sq.value.color == Black; -(MaterialValue(sq.value.kind) as int)
  }

  /** The material balance of a board, positive when White is ahead. */
  function MaterialBalance(b: Board): (score: int)
    ensures -576 <= score <= 576
  {
    BoardSumBounded(b, MaterialScore, -9, 9);
    BoardSum(b, MaterialScore)
  }

  /** The evaluation of a position: the material balance of its board. */
  function EvaluateMaterial(g: Game): (score: int)
    ensures -576 <= score <= 576
  {
    MaterialBalance(g.board)
  }

  /** Whether a square holds a piece of the given colour and kind. */
  function Holds(c: Color, k: PieceType): (Square, int, int) -> int {
    (sq: Square, i: int, j: int) => if sq == Some(Piece(c, k)) then 1 else 0
  }

  /** The number of pieces of colour c and kind k on the board. */
  function Count(b: Board, c: Color, k: PieceType): (n: int)
    ensures 0 <= n <= 64
  {
    BoardSumBounded(b, Holds(c, k), 0, 1);
    BoardSum(b, Holds(c, k))
  }

  /** The material balance computed piece kind by piece kind, from the counts of each side. */
  function CountedMaterial(b: Board, kinds: seq<PieceType>): int {
    if |kinds| == 0 then 0
    else MaterialValue(kinds[0]) * (Count(b, White, kinds[0]) - Count(b, Black, kinds[0])) + CountedMaterial(b, kinds[1..])
  }

  /** The per-square score restricted to the given kinds. */
  function KindsScore(kinds: seq<PieceType>): (Square, int, int) -> int {
    (sq: Square, i: int, j: int) => if sq.Some? && sq.value.kind in kinds then MaterialScore(sq, i, j) else 0
  }

  /** The score of one kind is its value times the difference of the two sides' indicators. */
  lemma KindScoreSplits(b: Board, k: PieceType)
    ensures BoardSum(b, KindsScore([k])) == MaterialValue(k) * (Count(b, White, k) - Count(b, Black, k))
  {
    var v := MaterialValue(k);
    BoardSumCombined(b, KindsScore([k]), Holds(White, k), Holds(Black, k), v, -v);
    assert v * Count(b, White, k) + -v * Count(b, Black, k) == v * (Count(b, White, k) - Count(b, Black, k));
  }

  lemma {:induction false} KindsScoreSums(b: Board, kinds: seq<PieceType>)
    requires forall m, n :: 0 <= m < n < |kinds| ==> kinds[m] != kinds[n]
    ensures BoardSum(b, KindsScore(kinds)) == CountedMaterial(b, kinds)
    decreases |kinds|
  {
    if |kinds| == 0 {
      BoardSumCombined(b, KindsScore(kinds), KindsScore(kinds), KindsScore(kinds), 0, 0);
    } else {
      var k, rest := kinds[0], kinds[1..];
      KindsScoreSums(b, rest);
      KindScoreSplits(b, k);
      assert forall m :: 0 <= m < |rest| ==> rest[m] == kinds[m + 1] != k;
      assert k !in rest;
      forall i, j | 0 <= i < 8 && 0 <= j < 8
        ensures KindsScore(kinds)(b[i][j], i, j) == 1 * KindsScore([k])(b[i][j], i, j) + 1 * KindsScore(rest)(b[i][j], i, j)
      {
      }
      BoardSumCombined(b, KindsScore(kinds), KindsScore([k]), KindsScore(rest), 1, 1);
    }
  }

  /**
   * The material balance is the sum, over the piece kinds, of each kind's value times the number
   * of White pieces of that kind minus the number of Black ones.
   */
  lemma MaterialIsCountWeighted(b: Board)
    ensures MaterialBalance(b) == CountedMaterial(b, [Pawn, Knight, Bishop, Rook, Queen, King])
  {
    var all := [Pawn, Knight, Bishop, Rook, Queen, King];
    KindsScoreSums(b, all);
    BoardSumCombined(b, MaterialScore, KindsScore(all), KindsScore(all), 1, 0);
  }

  /** Swapping the colours of every piece negates the balance. */
  lemma SwapColorsNegatesMaterial(b: Board)
    ensures MaterialBalance(SwapColors(b)) == -MaterialBalance(b)
  {
    BoardSumNegated(b, SwapColors(b), MaterialScore);
  }

  /** Turning the board round and swapping the colours negates the balance. */
  lemma MirrorNegatesMaterial(b: Board)
    ensures MaterialBalance(Mirror(b)) == -MaterialBalance(b)
  {
    BoardSumReflected(b, Mirror(b), MaterialScore);
  }

  /**
   * The count has no game-over shortcut: positions on the same board evaluate alike whatever the
   * side to move, the checkmate, draw and check status, or the legal moves.
   */
  lemma MaterialIgnoresGameState(g: Game, h: Game)
    requires g.board == h.board
    ensures EvaluateMaterial(g) == EvaluateMaterial(h)
  {
  }
}
