/**
 * Which sound accompanies a move: checkmate first, then check, then the move's own kind as its
 * engine flags tell it (capture 'c', castling, promotion 'p'), and a plain move sound otherwise.
 *
 * The engine flags a kingside castle 'k' and a queenside castle 'q'. The code looks for 'k' only,
 * so a queenside castle sounds like a plain move. The choice is modelled with the set of castle
 * flags as a parameter: as written ({'k'}) and as intended ({'k', 'q'}).
 */
module Sounds {
  import opened Wrappers

  datatype SoundType = Move | Capture | Check | Castle | Promote | Checkmate | Draw | Illegal | Notify

  /** `move.flags && move.flags.includes(c)`: a missing flag string contains nothing. */
  predicate HasFlag(flags: Option<string>, c: char) {
    flags.Some? && c in flags.value
  }

  predicate HasAnyFlag(flags: Option<string>, cs: set<char>) {
    exists c :: c in cs && HasFlag(flags, c)
  }

  /** The sound for a move, with the given flag letters counting as castling. */
  function SoundFor(flags: Option<string>, isCheck: bool, isCheckmate: bool, castleFlags: set<char>): (r: SoundType)
    ensures r == Checkmate <==> isCheckmate
    ensures r == Check <==> !isCheckmate && isCheck
    ensures r == Capture <==> !isCheckmate && !isCheck && HasFlag(flags, 'c')
    ensures r == Castle <==> !isCheckmate && !isCheck && !HasFlag(flags, 'c') && HasAnyFlag(flags, castleFlags)
    ensures r == Promote <==> !isCheckmate && !isCheck && !HasFlag(flags, 'c') && !HasAnyFlag(flags, castleFlags) && HasFlag(flags, 'p')
    ensures r !in {Draw, Illegal, Notify}
  {
    if isCheckmate then Checkmate
    else if isCheck then Check
    else if HasFlag(flags, 'c') then Capture
    else if HasAnyFlag(flags, castleFlags) then Castle
    else if HasFlag(flags, 'p') then Promote
    else Move
  }

  /** The castle flags the code looks for. */
  const WrittenCastleFlags: set<char> := {'k'}

  /** Both castle flags the engine uses: 'k' kingside, 'q' queenside. */
  const CastleFlags: set<char> := {'k', 'q'}

  /** The sound as the code chooses it. */
  function SoundForMoveAsWritten(flags: Option<string>, isCheck: bool, isCheckmate: bool): (r: SoundType)
    ensures r == Castle <==> !isCheckmate && !isCheck && !HasFlag(flags, 'c') && HasFlag(flags, 'k')
  {
    var r := SoundFor(flags, isCheck, isCheckmate, WrittenCastleFlags);
    assert HasAnyFlag(flags, WrittenCastleFlags) <==> HasFlag(flags, 'k') by {
      if HasFlag(flags, 'k') {
        assert 'k' in WrittenCastleFlags;
      }
    }
    r
  }

  /** As written, a queenside castle without check plays the plain move sound. */
  lemma AsWrittenQueensideCastleIsPlainMove()
    ensures SoundForMoveAsWritten(Some("q"), false, false) == Move
  {
    assert !HasFlag(Some("q"), 'k');
  }

  /** The sound as intended: either castle plays the castle sound. */
  function SoundForMove(flags: Option<string>, isCheck: bool, isCheckmate: bool): (r: SoundType)
    ensures r == Castle <==> !isCheckmate && !isCheck && !HasFlag(flags, 'c') && (HasFlag(flags, 'k') || HasFlag(flags, 'q'))
  {
    var r := SoundFor(flags, isCheck, isCheckmate, CastleFlags);
    assert HasAnyFlag(flags, CastleFlags) <==> HasFlag(flags, 'k') || HasFlag(flags, 'q') by {
      if HasFlag(flags, 'k') {
        assert 'k' in CastleFlags;
      }
      if HasFlag(flags, 'q') {
        assert 'q' in CastleFlags;
      }
    }
    r
  }

  /** The sounds whose conditions hold, from the most to the least urgent; a plain move always qualifies. */
  function Candidates(flags: Option<string>, isCheck: bool, isCheckmate: bool, castleFlags: set<char>): seq<SoundType> {
    (if isCheckmate then [Checkmate] else [])
    + (if isCheck then [Check] else [])
    + (if HasFlag(flags, 'c') then [Capture] else [])
    + (if HasAnyFlag(flags, castleFlags) then [Castle] else [])
    + (if HasFlag(flags, 'p') then [Promote] else [])
    + [Move]
  }

  /** The sound played is the most urgent one whose condition holds. */
  lemma SoundIsMostUrgentCandidate(flags: Option<string>, isCheck: bool, isCheckmate: bool, castleFlags: set<char>)
    ensures SoundFor(flags, isCheck, isCheckmate, castleFlags) == Candidates(flags, isCheck, isCheckmate, castleFlags)[0]
  {
  }

  /** Under check or mate the move's flags play no part. */
  lemma CheckOverridesFlags(flags: Option<string>, other: Option<string>, isCheck: bool, isCheckmate: bool)
    requires isCheck || isCheckmate
    ensures SoundForMove(flags, isCheck, isCheckmate) == SoundForMove(other, isCheck, isCheckmate)
  {
  }

  /**
   * A capture that promotes sounds like a capture, a quiet promotion like a promotion, a queenside
   * castle like a castle, and a move without flags like a plain move.
   */
  lemma FlagExamples()
    ensures SoundForMove(Some("cp"), false, false) == Capture
    ensures SoundForMove(Some("np"), false, false) == Promote
    ensures SoundForMove(Some("q"), false, false) == Castle
    ensures SoundForMove(None, false, false) == Move
  {
    assert 'c' in "cp";
    assert 'c' !in "np" && 'k' !in "np" && 'q' !in "np" && 'p' in "np";
    assert 'q' in "q" && 'c' !in "q";
  }
}
