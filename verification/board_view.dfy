/**
 * The square-name conversion for a board seen from Black's side: the file letter and the rank
 * digit are both turned round ("a1" seen from Black is "h8").
 *
 * Strings are JavaScript strings, sequences of UTF-16 code units. The conversion goes through
 * `charAt`, `charCodeAt`, `String.fromCharCode` (which keeps the code modulo 2^16, and turns the
 * NaN of an empty string into code 0) and `parseInt` (which gives NaN for anything but a digit,
 * and NaN prints as "NaN").
 *
 * The file letter is computed as code(0) subtracted from a fixed sum. The code writes 219 for that
 * sum, which turns "a" into "z"; turning "a" into "h" needs 201, the sum of the codes of "a" and
 * "h". Both are modelled: the conversion as written, and the intended one.
 */
module BoardView {
  import opened Wrappers

  newtype CodeUnit = x: int | 0 <= x < 0x1_0000

  type JsString = seq<CodeUnit>

  const CodeA: CodeUnit := 97
  const CodeH: CodeUnit := 104
  const Code1: CodeUnit := 49
  const Code8: CodeUnit := 56

  /** The sum the code subtracts the file's code from. */
  const WrittenFileSum: int := 219
  /** The sum that sends "a" to "h", "b" to "g" and so on. */
  const IntendedFileSum: int := 201

  /** "NaN", what a template literal prints for a failed `parseInt`. */
  const NaNText: JsString := [78, 97, 78]

  /** A board square's name: a file letter "a" to "h" followed by a rank digit "1" to "8". */
  predicate IsSquare(p: JsString) {
    |p| == 2 && CodeA <= p[0] <= CodeH && Code1 <= p[1] <= Code8
  }

  /** `s.charAt(i)`: the code unit at i as a one-unit string, or the empty string past the end. */
  function CharAt(s: JsString, i: nat): (r: JsString)
    ensures |r| <= 1
    ensures i < |s| <==> |r| == 1
    ensures i < |s| ==> r[0] == s[i]
  {
    if i < |s| then [s[i]] else []
  }

  /** `String.fromCharCode(n)` for a whole number: the code unit n modulo 2^16. */
  function FromCharCode(n: int): (c: CodeUnit)
    ensures (c as int - n) % 0x1_0000 == 0
  {
    (n % 0x1_0000) as CodeUnit
  }

  /** `parseInt` of a string of at most one unit: its digit value, or None for NaN. */
  function ParseSingle(s: JsString): (r: Option<int>)
    requires |s| <= 1
    ensures r.Some? <==> |s| == 1 && 48 <= s[0] <= 57
    ensures r.Some? ==> 0 <= r.value <= 9 && r.value + 48 == s[0] as int
  {
    if |s| == 1 && 48 <= s[0] <= 57 then Some(s[0] as int - 48) else None
  }

  /** How a template literal prints `9 - parseInt(rank)`: one digit, or "NaN". */
  function RankText(rank: Option<int>): (r: JsString)
    requires rank.Some? ==> 0 <= rank.value <= 9
    ensures rank.None? ==> r == NaNText
    ensures rank.Some? ==> |r| == 1 && r[0] as int == 48 + 9 - rank.value
  {
    match rank
    case None => NaNText
    case Some(d) => [(48 + 9 - d) as CodeUnit]
  }

  /** The code of the first unit, as `charCodeAt(0)` of a one-unit string, with NaN for "". */
  function FirstCode(file: JsString): Option<int>
    requires |file| <= 1
  {
    if |file| == 1 then Some(file[0] as int) else None
  }

  /** The conversion with the file computed from the given sum. */
  function Convert(position: JsString, isFlipped: bool, fileSum: int): (r: JsString)
    ensures !isFlipped ==> r == position
    ensures isFlipped ==> |r| == 2 || (|r| == 4 && r[1..] == NaNText)
    ensures isFlipped && |position| == 0 ==> r == [0] + NaNText
    ensures isFlipped && |position| > 0 ==> (r[0] as int - (fileSum - position[0] as int)) % 0x1_0000 == 0
  {
    if isFlipped then
      var file, rank := CharAt(position, 0), CharAt(position, 1);
      var newFile := match FirstCode(file) case None => 0 as CodeUnit case Some(c) => FromCharCode(fileSum - c);
      var newRank := ParseSingle(rank);
      [newFile] + RankText(newRank)
    else
      position
  }

  /** The conversion as the code writes it, with 219 for the file sum. */
  function ConvertAsWritten(position: JsString, isFlipped: bool): (r: JsString)
    ensures !isFlipped ==> r == position
    ensures isFlipped && IsSquare(position) ==> |r| == 2 && r[1] as int == Code1 as int + Code8 as int - position[1] as int
  {
    Convert(position, isFlipped, WrittenFileSum)
  }

  /** Seen from Black, "a1" comes out as "z8", which is not a square. */
  lemma AsWrittenTurnsA1IntoZ8()
    ensures ConvertAsWritten([97, 49], true) == [122, 56]
    ensures !IsSquare(ConvertAsWritten([97, 49], true))
  {
  }

  /** As written, no square's name turned round is the name of a square: the file lands on "s" to "z". */
  lemma AsWrittenLeavesTheBoard(p: JsString)
    requires IsSquare(p)
    ensures var r := ConvertAsWritten(p, true);
      && !IsSquare(r)
      && 115 <= r[0] <= 122
  {
  }

  /** As written, turning a square round twice still gives it back: 219 - (219 - c) is c. */
  lemma AsWrittenFlipIsInvolution(p: JsString)
    requires IsSquare(p)
    ensures ConvertAsWritten(ConvertAsWritten(p, true), true) == p
  {
    var q := ConvertAsWritten(p, true);
    var r := ConvertAsWritten(q, true);
    assert r[0] == p[0] && r[1] == p[1];
  }

  /** The intended conversion, with 201 for the file sum. */
  function ConvertChessPosition(position: JsString, isFlipped: bool): (r: JsString)
    ensures !isFlipped ==> r == position
    ensures isFlipped && IsSquare(position) ==> IsSquare(r)
    ensures isFlipped && IsSquare(position) ==>
      && r[0] as int - CodeA as int == CodeH as int - position[0] as int
      && r[1] as int - Code1 as int == Code8 as int - position[1] as int
  {
    Convert(position, isFlipped, IntendedFileSum)
  }

  /** Turning the board round twice gives back the square. */
  lemma FlipIsInvolution(p: JsString)
    requires IsSquare(p)
    ensures ConvertChessPosition(ConvertChessPosition(p, true), true) == p
  {
    var q := ConvertChessPosition(p, true);
    var r := ConvertChessPosition(q, true);
    assert r[0] == p[0] && r[1] == p[1];
  }

  /** Different squares stay different once turned round. */
  lemma FlipIsInjective(p: JsString, q: JsString)
    requires IsSquare(p) && IsSquare(q)
    ensures ConvertChessPosition(p, true) == ConvertChessPosition(q, true) <==> p == q
  {
    if ConvertChessPosition(p, true) == ConvertChessPosition(q, true) {
      FlipIsInvolution(p);
      FlipIsInvolution(q);
    }
  }
}
