/**
 * The chess vocabulary shared by the evaluators and the move pickers: colours, pieces, the 8x8 board
 * returned by the rules engine's `board()`, moves in the engine's verbose form, and the game tree that
 * stands in for the rules engine itself.
 */
module Chess {
  import opened Wrappers

  /** The difficulty levels offered against the computer, weakest first. */
  datatype Difficulty = Easy | Medium | Hard | Expert

  datatype Color = White | Black {
    function Opponent(): (c: Color)
      ensures c != this
    {
      if this == White then Black else White
    }
  }

  datatype PieceType = Pawn | Knight | Bishop | Rook | Queen | King

  datatype Piece = Piece(color: Color, kind: PieceType)

  /** An empty square is None, as the engine's `board()` reports `null`. */
  type Square = Option<Piece>

  predicate IsBoard(rows: seq<seq<Square>>) {
    |rows| == 8 && forall i :: 0 <= i < 8 ==> |rows[i]| == 8
  }

  /**
   * Eight rows of eight squares. Row 0 is rank 8 and row 7 is rank 1; column 0 is the a-file.
   * This is the orientation of the engine's `board()` and of White's piece-square tables.
   */
  type Board = rows: seq<seq<Square>> | IsBoard(rows)
    witness seq(8, i => seq(8, j => None))

  function SwapSquare(sq: Square): (r: Square)
    ensures sq.None? <==> r.None?
    ensures sq.Some? ==> r.value.kind == sq.value.kind && r.value.color == sq.value.color.Opponent()
  {
    match sq
    case None => None
    case Some(p) => Some(Piece(p.color.Opponent(), p.kind))
  }

  /** Every piece changes colour and stays on its square. */
  function SwapColors(b: Board): (r: Board)
    ensures forall i, j :: 0 <= i < 8 && 0 <= j < 8 ==> r[i][j] == SwapSquare(b[i][j])
  {
    var rows := seq(8, i requires 0 <= i < 8 => seq(8, j requires 0 <= j < 8 => SwapSquare(b[i][j])));
    assert forall i :: 0 <= i < 8 ==> |rows[i]| == 8;
    rows
  }

  /** Colour mirroring: the piece on rank r moves to rank 9 - r on the same file and changes colour. */
  function Mirror(b: Board): (r: Board)
    ensures forall i, j :: 0 <= i < 8 && 0 <= j < 8 ==> r[i][j] == SwapSquare(b[7 - i][j])
  {
    var rows := seq(8, i requires 0 <= i < 8 => seq(8, j requires 0 <= j < 8 => SwapSquare(b[7 - i][j])));
    assert forall i :: 0 <= i < 8 ==> |rows[i]| == 8;
    rows
  }

  /**
   * A move as the engine's verbose move list reports it: its Standard Algebraic Notation, its flag
   * letters ('c' capture, 'e' en passant, 'k'/'q' castling, 'p' promotion, ...) and the captured piece.
   */
  datatype Move = Move(san: string, flags: string, captured: Option<PieceType>)

  /**
   * A position together with everything the rules engine answers about it: whose turn it is, the
   * checkmate, draw and in-check predicates, and the legal moves, each with the position it leads to.
   */
  datatype Game = Game(board: Board, turn: Color, checkmate: bool, draw: bool, inCheck: bool, moves: seq<Branch>) {
    /** The engine's `isGameOver()`: checkmate or any kind of draw (stalemate included). */
    predicate GameOver() {
      checkmate || draw
    }
  }

  datatype Branch = Branch(move: Move, next: Game)

  /** The engine's `moves()` list of SAN strings. */
  function SanList(g: Game): (sans: seq<string>)
    ensures |sans| == |g.moves|
    ensures forall k :: 0 <= k < |g.moves| ==> sans[k] == g.moves[k].move.san
  {
    seq(|g.moves|, k requires 0 <= k < |g.moves| => g.moves[k].move.san)
  }

  /** The engine's `moves({ verbose: true })` list. */
  function VerboseMoves(g: Game): (ms: seq<Move>)
    ensures |ms| == |g.moves|
    ensures forall k :: 0 <= k < |g.moves| ==> ms[k] == g.moves[k].move
  {
    seq(|g.moves|, k requires 0 <= k < |g.moves| => g.moves[k].move)
  }

  /**
   * What every real chess position satisfies, at every node of the tree: a position that is not over
   * has at least one legal move (no legal move means checkmate or stalemate).
   */
  ghost predicate Consistent(g: Game)
    decreases g
  {
    && (|g.moves| == 0 ==> g.GameOver())
    && forall k :: 0 <= k < |g.moves| ==> Consistent(g.moves[k].next)
  }
}
