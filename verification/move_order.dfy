/**
 * The search's move ordering: the legal moves are sorted so that captures (SAN containing 'x') come
 * first, with the comparator `key(b) - key(a)` where a capture has key 10 and any other move key 0.
 * JavaScript's sort is stable, so it is modelled by a stable insertion sort.
 */
module MoveOrder {
  import opened Chess
  import opened Seqs

  predicate IsCapture(b: Branch) {
    'x' in b.move.san
  }

  predicate IsQuiet(b: Branch) {
    'x' !in b.move.san
  }

  function CaptureKey(b: Branch): (key: int) {
    if 'x' in b.move.san then 10 else 0
  }

  /** Places m in front of the first element whose key is not greater than m's. */
  function Insert(m: Branch, sorted: seq<Branch>): (r: seq<Branch>) {
    if |sorted| == 0 || CaptureKey(sorted[0]) <= CaptureKey(m) then [m] + sorted
    else [sorted[0]] + Insert(m, sorted[1..])
  }

  /** Every capture stands before every non-capture. */
  predicate CapturesFirst(ms: seq<Branch>) {
    forall i, j :: 0 <= i < j < |ms| && IsCapture(ms[j]) ==> IsCapture(ms[i])
  }

  lemma {:induction false} InsertIntoPartition(m: Branch, captures: seq<Branch>, quiet: seq<Branch>)
    requires forall k :: 0 <= k < |captures| ==> IsCapture(captures[k])
    requires forall k :: 0 <= k < |quiet| ==> IsQuiet(quiet[k])
    ensures Insert(m, captures + quiet) == if IsCapture(m) then [m] + captures + quiet else captures + [m] + quiet
  {
    if !IsCapture(m) && |captures| > 0 {
      assert (captures + quiet)[1..] == captures[1..] + quiet;
      InsertIntoPartition(m, captures[1..], quiet);
    }
  }

  /** The engine's `moves.sort(...)` with the capture-first comparator, as a stable insertion sort. */
  function OrderMoves(ms: seq<Branch>): (r: seq<Branch>) {
    if |ms| == 0 then [] else Insert(ms[0], OrderMoves(ms[1..]))
  }

  /**
   * The sorted list is the captures followed by the other moves, each group in the engine's
   * original order: the sort is a stable partition.
   */
  lemma {:induction false} OrderMovesIsStablePartition(ms: seq<Branch>)
    ensures OrderMoves(ms) == Filter(ms, IsCapture) + Filter(ms, IsQuiet)
  {
    if |ms| > 0 {
      var m, rest := ms[0], ms[1..];
      var captures, quiet := Filter(rest, IsCapture), Filter(rest, IsQuiet);
      assert OrderMoves(ms) == Insert(m, OrderMoves(rest));
      OrderMovesIsStablePartition(rest);
      InsertIntoPartition(m, captures, quiet);
      assert Filter(ms, IsCapture) == (if IsCapture(m) then [m] else []) + captures;
      assert Filter(ms, IsQuiet) == (if IsQuiet(m) then [m] else []) + quiet;
      if IsCapture(m) {
        assert OrderMoves(ms) == [m] + captures + quiet;
        assert Filter(ms, IsCapture) + Filter(ms, IsQuiet) == ([m] + captures) + quiet;
      } else {
        assert OrderMoves(ms) == captures + [m] + quiet;
        assert Filter(ms, IsCapture) + Filter(ms, IsQuiet) == captures + ([m] + quiet);
      }
    }
  }

  /** Sorting is a permutation of the legal moves that puts every capture before every other move. */
  lemma OrderMovesPermutes(ms: seq<Branch>)
    ensures multiset(OrderMoves(ms)) == multiset(ms)
    ensures CapturesFirst(OrderMoves(ms))
  {
    OrderMovesIsStablePartition(ms);
    var captures, quiet := Filter(ms, IsCapture), Filter(ms, IsQuiet);
    var r := captures + quiet;
    assert multiset(r) == multiset(ms) by {
      assert multiset(r) == multiset(captures) + multiset(quiet);
      FilterPartition(ms, IsCapture, IsQuiet);
    }
    forall i, j | 0 <= i < j < |r|
      ensures IsCapture(r[j]) ==> IsCapture(r[i])
    {
      if i < |captures| {
        assert r[i] == captures[i];
      } else {
        assert r[j] == quiet[j - |captures|];
      }
    }
  }

  /** A move is in the sorted list exactly when it is a legal move. */
  lemma OrderMovesSameMoves(ms: seq<Branch>, b: Branch)
    ensures b in OrderMoves(ms) <==> b in ms
  {
    OrderMovesPermutes(ms);
    assert b in OrderMoves(ms) <==> b in multiset(OrderMoves(ms));
  }
}
