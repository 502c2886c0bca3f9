/**
 * The double loop over the 64 squares that both evaluators share: row i from 0 to 7, column j
 * from 0 to 7, adding a per-square score that may depend on the square's contents and coordinates.
 */
module BoardSums {
  import opened Chess

  /** Sum of `score` over the first n squares of row i. */
  function RowSum(b: Board, i: int, n: nat, score: (Square, int, int) -> int): (sum: int)
    requires 0 <= i < 8 && n <= 8
  {
    if n == 0 then 0 else RowSum(b, i, n - 1, score) + score(b[i][n - 1], i, n - 1)
  }

  /** Sum of `score` over the first m rows. */
  function RowsSum(b: Board, m: nat, score: (Square, int, int) -> int): (sum: int)
    requires m <= 8
  {
    if m == 0 then 0 else RowsSum(b, m - 1, score) + RowSum(b, m - 1, 8, score)
  }

  function BoardSum(b: Board, score: (Square, int, int) -> int): (sum: int) {
    RowsSum(b, 8, score)
  }

  lemma {:induction false} RowSumNegated(b: Board, i: int, b': Board, i': int, n: nat, score: (Square, int, int) -> int)
    requires 0 <= i < 8 && 0 <= i' < 8 && n <= 8
    requires forall j :: 0 <= j < 8 ==> score(b'[i'][j], i', j) == -score(b[i][j], i, j)
    ensures RowSum(b', i', n, score) == -RowSum(b, i, n, score)
  {
    if n > 0 {
      RowSumNegated(b, i, b', i', n - 1, score);
    }
  }

  lemma {:induction false} RowsSumReflected(b: Board, b': Board, m: nat, score: (Square, int, int) -> int)
    requires m <= 8
    requires forall i, j :: 0 <= i < 8 && 0 <= j < 8 ==> score(b'[i][j], i, j) == -score(b[7 - i][j], 7 - i, j)
    ensures RowsSum(b', m, score) == RowsSum(b, 8 - m, score) - RowsSum(b, 8, score)
  {
    if m > 0 {
      RowsSumReflected(b, b', m - 1, score);
      RowSumNegated(b, 8 - m, b', m - 1, 8, score);
    }
  }

  /**
   * When the score of each square of b' is the negated score of the square with the same file on
   * the reflected rank of b, the whole board sums negate.
   */
  lemma BoardSumReflected(b: Board, b': Board, score: (Square, int, int) -> int)
    requires forall i, j :: 0 <= i < 8 && 0 <= j < 8 ==> score(b'[i][j], i, j) == -score(b[7 - i][j], 7 - i, j)
    ensures BoardSum(b', score) == -BoardSum(b, score)
  {
    RowsSumReflected(b, b', 8, score);
  }

  lemma {:induction false} RowsSumNegated(b: Board, b': Board, m: nat, score: (Square, int, int) -> int)
    requires m <= 8
    requires forall i, j :: 0 <= i < 8 && 0 <= j < 8 ==> score(b'[i][j], i, j) == -score(b[i][j], i, j)
    ensures RowsSum(b', m, score) == -RowsSum(b, m, score)
  {
    if m > 0 {
      RowsSumNegated(b, b', m - 1, score);
      RowSumNegated(b, m - 1, b', m - 1, 8, score);
    }
  }

  /** When every square's score is negated in place, the whole board sums negate. */
  lemma BoardSumNegated(b: Board, b': Board, score: (Square, int, int) -> int)
    requires forall i, j :: 0 <= i < 8 && 0 <= j < 8 ==> score(b'[i][j], i, j) == -score(b[i][j], i, j)
    ensures BoardSum(b', score) == -BoardSum(b, score)
  {
    RowsSumNegated(b, b', 8, score);
  }

  lemma {:induction false} RowSumCombined(b: Board, i: int, n: nat, f: (Square, int, int) -> int,
                                          g: (Square, int, int) -> int, h: (Square, int, int) -> int, x: int, y: int)
    requires 0 <= i < 8 && n <= 8
    requires forall j :: 0 <= j < 8 ==> f(b[i][j], i, j) == x * g(b[i][j], i, j) + y * h(b[i][j], i, j)
    ensures RowSum(b, i, n, f) == x * RowSum(b, i, n, g) + y * RowSum(b, i, n, h)
  {
    if n > 0 {
      RowSumCombined(b, i, n - 1, f, g, h, x, y);
      var G, H := RowSum(b, i, n - 1, g), RowSum(b, i, n - 1, h);
      var sg, sh := g(b[i][n - 1], i, n - 1), h(b[i][n - 1], i, n - 1);
      assert x * (G + sg) == x * G + x * sg;
      assert y * (H + sh) == y * H + y * sh;
    }
  }

  lemma {:induction false} RowsSumCombined(b: Board, m: nat, f: (Square, int, int) -> int,
                                           g: (Square, int, int) -> int, h: (Square, int, int) -> int, x: int, y: int)
    requires m <= 8
    requires forall i, j :: 0 <= i < 8 && 0 <= j < 8 ==> f(b[i][j], i, j) == x * g(b[i][j], i, j) + y * h(b[i][j], i, j)
    ensures RowsSum(b, m, f) == x * RowsSum(b, m, g) + y * RowsSum(b, m, h)
  {
    if m > 0 {
      RowsSumCombined(b, m - 1, f, g, h, x, y);
      RowSumCombined(b, m - 1, 8, f, g, h, x, y);
      var G, H := RowsSum(b, m - 1, g), RowsSum(b, m - 1, h);
      var rg, rh := RowSum(b, m - 1, 8, g), RowSum(b, m - 1, 8, h);
      assert x * (G + rg) == x * G + x * rg;
      assert y * (H + rh) == y * H + y * rh;
    }
  }

  /** The board sum is linear in the per-square score. */
  lemma BoardSumCombined(b: Board, f: (Square, int, int) -> int, g: (Square, int, int) -> int,
                         h: (Square, int, int) -> int, x: int, y: int)
    requires forall i, j :: 0 <= i < 8 && 0 <= j < 8 ==> f(b[i][j], i, j) == x * g(b[i][j], i, j) + y * h(b[i][j], i, j)
    ensures BoardSum(b, f) == x * BoardSum(b, g) + y * BoardSum(b, h)
  {
    RowsSumCombined(b, 8, f, g, h, x, y);
  }

  lemma {:induction false} RowSumBounded(b: Board, i: int, n: nat, score: (Square, int, int) -> int, lo: int, hi: int)
    requires 0 <= i < 8 && n <= 8
    requires forall j :: 0 <= j < 8 ==> lo <= score(b[i][j], i, j) <= hi
    ensures n * lo <= RowSum(b, i, n, score) <= n * hi
  {
    if n > 0 {
      RowSumBounded(b, i, n - 1, score, lo, hi);
    }
  }

  lemma {:induction false} RowsSumBounded(b: Board, m: nat, score: (Square, int, int) -> int, lo: int, hi: int)
    requires m <= 8
    requires forall i, j :: 0 <= i < 8 && 0 <= j < 8 ==> lo <= score(b[i][j], i, j) <= hi
    ensures 8 * m * lo <= RowsSum(b, m, score) <= 8 * m * hi
  {
    if m > 0 {
      RowsSumBounded(b, m - 1, score, lo, hi);
      RowSumBounded(b, m - 1, 8, score, lo, hi);
    }
  }

  /** A per-square score between lo and hi sums to between 64 lo and 64 hi. */
  lemma BoardSumBounded(b: Board, score: (Square, int, int) -> int, lo: int, hi: int)
    requires forall i, j :: 0 <= i < 8 && 0 <= j < 8 ==> lo <= score(b[i][j], i, j) <= hi
    ensures 64 * lo <= BoardSum(b, score) <= 64 * hi
  {
    RowsSumBounded(b, 8, score, lo, hi);
  }
}
