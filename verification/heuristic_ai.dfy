/**
 * The move picker the game screen calls for the computer's reply: no search, just a uniformly drawn
 * move from a pool that depends on the difficulty level.
 *
 * - Easy: any legal move.
 * - Medium: a capture (flag 'c') when there is one and the first coin says so, else any move.
 * - Hard: a capture of a queen, rook, bishop or knight when there is one and the first coin says
 *   so, else any move.
 * - Expert: a checking move when there is one and the first coin says so; otherwise a capture when
 *   there is one and the second coin says so; otherwise any move.
 *
 * The random draws become parameters: the coins are the outcomes of the `Math.random() > p` tests
 * (probabilities 0.7, 0.8, 0.9 and 0.8), and `pick` is the index drawn in the chosen pool.
 *
 * The code recognises a checking move by a '+' in its SAN; the rules engine writes a mating move
 * with '#' instead, so as written the Expert level never prefers a mate. The picker is modelled
 * with the checking test as a parameter: as written ('+' only) and as intended ('+' or '#').
 */
module HeuristicAI {
  import opened Wrappers
  import opened Chess
  import opened Seqs

  /** The random draws of one call: up to two coins, then an index into the chosen pool. */
  datatype Draws = Draws(firstCoin: bool, secondCoin: bool, pick: nat)

  /** The move captures something: the engine flags it 'c' (en passant is flagged 'e' instead). */
  predicate FlagsCapture(m: Move) {
    'c' in m.flags
  }

  /** The move captures a queen, rook, bishop or knight. */
  predicate CapturesValuable(m: Move) {
    'c' in m.flags
    && (m.captured == Some(Queen) || m.captured == Some(Rook) || m.captured == Some(Bishop) || m.captured == Some(Knight))
  }

  /** The test the code applies for a checking move: a '+' in the SAN. */
  predicate SanHasPlus(m: Move) {
    '+' in m.san
  }

  /** A move that gives check, mate included: SAN ends in '+' for a check and in '#' for a mate. */
  predicate GivesCheck(m: Move) {
    '+' in m.san || '#' in m.san
  }

  /** Some legal move passes the test. */
  predicate HasCandidate(ms: seq<Move>, keep: Move -> bool) {
    exists m :: m in ms && keep(m)
  }

  /** The pool holds exactly the legal moves that pass the test. */
  predicate PrefersExactly(ms: seq<Move>, pool: seq<Move>, keep: Move -> bool) {
    && (forall k :: 0 <= k < |pool| ==> pool[k] in ms && keep(pool[k]))
    && (forall m :: m in ms && keep(m) ==> m in pool)
  }

  /** Filtering by a test keeps exactly the passing moves, and keeps some exactly when there is one. */
  lemma FilterPrefersExactly(ms: seq<Move>, keep: Move -> bool)
    ensures PrefersExactly(ms, Filter(ms, keep), keep)
    ensures |Filter(ms, keep)| > 0 <==> HasCandidate(ms, keep)
  {
    FilterMembers(ms, keep);
    var f := Filter(ms, keep);
    if |f| > 0 {
      assert f[0] in ms && keep(f[0]);
    }
  }

  /** The pool the move is drawn from, for a given test of checking moves. */
  function Pool(ms: seq<Move>, d: Difficulty, draws: Draws, checking: Move -> bool): (pool: seq<Move>)
    ensures |pool| > 0 <==> |ms| > 0
    ensures forall k :: 0 <= k < |pool| ==> pool[k] in ms
    ensures d == Easy ==> pool == ms
    ensures d == Medium ==>
      if draws.firstCoin && HasCandidate(ms, FlagsCapture) then PrefersExactly(ms, pool, FlagsCapture)
      else pool == ms
    ensures d == Hard ==>
      if draws.firstCoin && HasCandidate(ms, CapturesValuable) then PrefersExactly(ms, pool, CapturesValuable)
      else pool == ms
    ensures d == Expert ==>
      if draws.firstCoin && HasCandidate(ms, checking) then PrefersExactly(ms, pool, checking)
      else if draws.secondCoin && HasCandidate(ms, FlagsCapture) then PrefersExactly(ms, pool, FlagsCapture)
      else pool == ms
    ensures !draws.firstCoin && !(d == Expert && draws.secondCoin) ==> pool == ms
  {
    FilterPrefersExactly(ms, FlagsCapture);
    FilterPrefersExactly(ms, CapturesValuable);
    FilterPrefersExactly(ms, checking);
    match d
    case Easy => ms
    case Medium =>
      var captures := Filter(ms, FlagsCapture);
      if |captures| > 0 && draws.firstCoin then captures else ms
    case Hard =>
      var valuable := Filter(ms, CapturesValuable);
      if |valuable| > 0 && draws.firstCoin then valuable else ms
    case Expert =>
      var checks := Filter(ms, checking);
      var captures := Filter(ms, FlagsCapture);
      if |checks| > 0 && draws.firstCoin then checks
      else if |captures| > 0 && draws.secondCoin then captures
      else ms
  }

  /** The SAN of the drawn move, or None when there is no legal move. */
  function Choose(ms: seq<Move>, d: Difficulty, draws: Draws, checking: Move -> bool): (r: Option<string>)
    ensures r.None? <==> |ms| == 0
    ensures r.Some? ==> exists k :: 0 <= k < |ms| && ms[k].san == r.value
    ensures r.Some? ==> exists m :: m in Pool(ms, d, draws, checking) && m.san == r.value
  {
    if |ms| == 0 then None
    else
      var pool := Pool(ms, d, draws, checking);
      var m := pool[draws.pick % |pool|];
      assert m in ms;
      Some(m.san)
  }

  /** The picker as intended: checking moves include mates. */
  function GenerateAIMove(g: Game, d: Difficulty, draws: Draws): (r: Option<string>)
    ensures r.None? <==> |g.moves| == 0
    ensures r.Some? ==> r.value in SanList(g)
    ensures d == Easy && r.Some? ==> r == Some(g.moves[draws.pick % |g.moves|].move.san)
  {
    var r := Choose(VerboseMoves(g), d, draws, GivesCheck);
    if r.Some? then
      var k :| 0 <= k < |VerboseMoves(g)| && VerboseMoves(g)[k].san == r.value;
      assert SanList(g)[k] == r.value;
      r
    else r
  }

  /** The picker as written: only a '+' marks a checking move. */
  function GenerateAIMoveAsWritten(g: Game, d: Difficulty, draws: Draws): (r: Option<string>)
    ensures r.None? <==> |g.moves| == 0
    ensures r.Some? ==> r.value in SanList(g)
  {
    var r := Choose(VerboseMoves(g), d, draws, SanHasPlus);
    if r.Some? then
      var k :| 0 <= k < |VerboseMoves(g)| && VerboseMoves(g)[k].san == r.value;
      assert SanList(g)[k] == r.value;
      r
    else r
  }

  /**
   * At every level, when the coins do not call for a preference, the move is the drawn one among
   * all the legal moves; so every legal move can be chosen at every level.
   */
  lemma EveryMoveCanBeChosen(ms: seq<Move>, d: Difficulty, checking: Move -> bool, k: nat)
    requires k < |ms|
    ensures Choose(ms, d, Draws(false, false, k), checking) == Some(ms[k].san)
  {
    assert k % |ms| == k;
  }

  /**
   * The preferences only narrow the pool: with no capture on offer, Medium plays exactly as Easy;
   * with no valuable capture on offer, Hard does.
   */
  lemma PreferenceWithoutCandidatesIsUniform(ms: seq<Move>, draws: Draws, checking: Move -> bool)
    ensures (forall m :: m in ms ==> !FlagsCapture(m)) ==> Choose(ms, Medium, draws, checking) == Choose(ms, Easy, draws, checking)
    ensures (forall m :: m in ms ==> !CapturesValuable(m)) ==> Choose(ms, Hard, draws, checking) == Choose(ms, Easy, draws, checking)
  {
    if forall m :: m in ms ==> !FlagsCapture(m) {
      NoCandidatesEmptyFilter(ms, FlagsCapture);
    }
    if forall m :: m in ms ==> !CapturesValuable(m) {
      NoCandidatesEmptyFilter(ms, CapturesValuable);
    }
  }

  lemma NoCandidatesEmptyFilter(ms: seq<Move>, keep: Move -> bool)
    requires forall m :: m in ms ==> !keep(m)
    ensures Filter(ms, keep) == []
  {
    FilterMembers(ms, keep);
  }

  /** A position where White mates with Qh7# or shuffles the king. */
  function MateOrShuffle(): (ms: seq<Move>)
    ensures |ms| == 2 && GivesCheck(ms[0]) && !SanHasPlus(ms[0]) && !GivesCheck(ms[1])
  {
    [Move("Qh7#", "n", None), Move("Kf1", "n", None)]
  }

  /**
   * As written, the Expert level with the check-preferring coin up still draws among all moves
   * when the only checking move is a mate, and may play the king shuffle.
   */
  lemma AsWrittenExpertMissesMate()
    ensures Choose(MateOrShuffle(), Expert, Draws(true, true, 1), SanHasPlus) == Some("Kf1")
  {
    var ms := MateOrShuffle();
    assert Filter(ms, SanHasPlus) == [] by {
      assert !SanHasPlus(ms[0]) && !SanHasPlus(ms[1]);
      assert Filter(ms[1..], SanHasPlus) == Filter(ms[2..], SanHasPlus);
    }
    assert Filter(ms, FlagsCapture) == [] by {
      assert !FlagsCapture(ms[0]) && !FlagsCapture(ms[1]);
      assert Filter(ms[1..], FlagsCapture) == Filter(ms[2..], FlagsCapture);
    }
  }

  /** As intended, the Expert level with the check-preferring coin up only ever plays a check or a mate. */
  lemma ExpertPrefersCheckOrMate(ms: seq<Move>, draws: Draws)
    requires draws.firstCoin && exists m :: m in ms && GivesCheck(m)
    ensures var r := Choose(ms, Expert, draws, GivesCheck);
      r.Some? && exists m :: m in ms && GivesCheck(m) && m.san == r.value
  {
    var pool := Pool(ms, Expert, draws, GivesCheck);
    var m := pool[draws.pick % |pool|];
    assert GivesCheck(m) && m in ms;
  }

  /** In the same position, the intended Expert level plays the mate. */
  lemma ExpertPlaysMate()
    ensures Choose(MateOrShuffle(), Expert, Draws(true, true, 1), GivesCheck) == Some("Qh7#")
  {
    var ms := MateOrShuffle();
    assert Filter(ms, GivesCheck) == [ms[0]] by {
      assert Filter(ms[1..], GivesCheck) == Filter(ms[2..], GivesCheck);
    }
  }
}
