# Chess move choice, evaluation and sound selection in Dafny

This project models the pure chess logic of a browser chess application:

- the computer opponent's search engine: a centipawn evaluator with piece-square tables, and a
  depth-bounded fail-soft minimax search with alpha-beta pruning that tries captures first;
- the tier-to-depth move chooser built on that search;
- the move picker the game page actually calls, a filter policy (random, prefer captures, prefer
  captures of valuable pieces, prefer checks);
- the material count shown as the advantage display;
- the square-name conversion for a board seen from Black's side;
- the choice of the sound that accompanies a move.

The rules engine (`chess.js`) is not modelled. It is replaced by an explicit game tree: a `Game`
holds the board, the side to move, the checkmate, draw and in-check answers, and the legal moves,
each with the position it leads to. The search copies the position before each move, so an
immutable tree is a faithful stand-in. Random draws become parameters: coin outcomes as booleans
and the drawn index as a natural number. JavaScript's infinities become `ExtInt`
(`NegInf | Fin(n) | PosInf`).

Files and modules:

- `wrappers.dfy` (`Wrappers`): `Option`.
- `chess.dfy` (`Chess`): colours, pieces, the 8x8 board, verbose moves, the game tree, and
  colour swapping and mirroring of boards.
- `board_sum.dfy` (`BoardSums`): the 64-square double loop both evaluators use. It is linear in
  the per-square score. It negates when every square's score negates, in place or rank-reflected.
- `evaluation.dfy` (`Evaluation`): the search engine's evaluator.
- `ext_int.dfy` (`ExtInts`): integers extended with the two infinities.
- `seqs.dfy` (`Seqs`): `Array.prototype.filter` and a first-occurrence index.
- `move_order.dfy` (`MoveOrder`): the capture-first stable sort.
- `search.dfy` (`Search`): plain minimax, alpha-beta, and their relation.
- `engine_ai.dfy` (`EngineAI`): the tier-to-depth chooser.
- `heuristic_ai.dfy` (`HeuristicAI`): the filter-policy picker.
- `material.dfy` (`Material`): the material-only evaluation.
- `board_view.dfy` (`BoardView`): the square-name conversion.
- `sounds.dfy` (`Sounds`): the sound choice.

The search-based chooser returns no move in a finished game that still has legal moves, such as
a draw by repetition: the search stops at game over before it looks at any move
(src/lib/chess-ai.ts:132-134, 190-207). See `EngineAI.FinishedGameYieldsNoSearchMove` and
`EngineAI.AIMoveNoneExactly`. The evaluator has no endgame or king-safety term.

## Model

| member | source | states |
|---|---|---|
| `Evaluation.Evaluate` | src/lib/chess-ai.ts:81-127 | A checkmate scores -10000 with White to move and +10000 with Black to move. A draw scores exactly 0. Otherwise the score is the board sum plus 2 per legal move for the side to move, minus 50 if that side is in check. |
| `Evaluation.MirrorNegatesBoard` | src/lib/chess-ai.ts:95-114 | Rank-mirroring the board and swapping every colour negates the material-and-placement sum exactly. Black reads White's tables at row 7 - i. |
| `Evaluation.EvaluateMirror` | src/lib/chess-ai.ts:81-127 | Two positions that are colour mirrors evaluate to exact negations: mirrored board, the other side to move, the same status flags and the same number of moves. |
| `BoardSums.BoardSumReflected` | src/lib/chess-ai.ts:95-114 | When each square's score is the negation of the rank-reflected square's score, the 64-square sum negates. |
| `BoardSums.BoardSumCombined` | src/lib/chess-utils.ts:124-136 | The 64-square sum is linear in the per-square score. |
| `MoveOrder.OrderMovesIsStablePartition` | src/lib/chess-ai.ts:140-144 | The sorted move list is the captures (SAN containing 'x') followed by the other moves, each group in its original order. |
| `MoveOrder.OrderMovesPermutes` | src/lib/chess-ai.ts:140-144 | Sorting is a permutation of the legal moves that puts every capture before every non-capture. |
| `Search.OrderingKeepsValue` | src/lib/chess-ai.ts:140-144 | Reordering the moves never changes the plain minimax value. |
| `Search.BestIsExtremum` | src/lib/chess-ai.ts:146-174 | The best of the children's values is one of them and bounds all of them. With no children it is the starting bound: -infinity when maximising, +infinity when minimising. |
| `Search.LeafIsStatic` | src/lib/chess-ai.ts:132-134 | At depth 0 or in a finished game the search returns the static evaluation and no move. |
| `Search.AlphaBetaFailSoft` | src/lib/chess-ai.ts:130-175 | For any window alpha < beta, a result at or below alpha bounds the true minimax value from above. A result at or above beta bounds it from below. A result inside the window is exact. |
| `Search.MaxLoopFailSoft` | src/lib/chess-ai.ts:146-159 | The maximising loop keeps its fail-soft invariant through the strict '>' update, the alpha raise and the cut-off. |
| `Search.MinLoopFailSoft` | src/lib/chess-ai.ts:160-174 | The minimising loop keeps its fail-soft invariant through the strict '<' update, the beta lowering and the cut-off. |
| `Search.AlphaBetaEqualsMinimax` | src/lib/chess-ai.ts:130-175 | With the window (-infinity, +infinity), the pruned search scores exactly the plain minimax value. |
| `Search.FirstMoveWithValue` | src/lib/chess-ai.ts:152-155 | A move is returned exactly when some child has the value. It is the first child, in list order, with that value. |
| `Search.MaxRootPicksFirstBest` | src/lib/chess-ai.ts:146-159 | At the root the maximising loop ends with the best value and the first move reaching it, because the comparison is a strict '>'. |
| `Search.MinRootPicksFirstBest` | src/lib/chess-ai.ts:160-174 | At the root the minimising loop ends with the best value and the first move reaching it, because the comparison is a strict '<'. |
| `Search.SearchPicksFirstBest` | src/lib/chess-ai.ts:130-175 | The root search returns the minimax value. Its move is the first move, in capture-first order, whose own value equals that score. |
| `Search.ConsistentValuesAreFinite` | src/lib/chess-ai.ts:130-134 | When every unfinished position has a legal move, every minimax value is finite. |
| `EngineAI.SearchDepth` | src/lib/chess-ai.ts:183-207 | Every tier searches between 1 and 4 plies. |
| `EngineAI.DeeperForStrongerTier` | src/lib/chess-ai.ts:190-206 | A stronger tier searches strictly deeper: Easy 1 < Medium 2 < Hard 3 < Expert 4. |
| `EngineAI.RootSearch` | src/lib/chess-ai.ts:190-206 | The search started by the chooser, with White maximising exactly when White is to move, gives no move at depth 0 or in a finished game. |
| `EngineAI.SearchMoveIsLegal` | src/lib/chess-ai.ts:148-169 | Any move the root search names is one of the position's legal moves. |
| `EngineAI.GenerateAIMove` | src/lib/chess-ai.ts:178-213 | No legal move gives no move. At Easy with the coin up, the result is the drawn legal move. Any move returned is legal. |
| `EngineAI.AIMoveIsFirstBest` | src/lib/chess-ai.ts:183-207 | When the search decides in an unfinished position, it returns a move: the first one, in capture-first order, whose minimax value equals the position's value at the tier's depth. |
| `EngineAI.AIMoveNoneExactly` | src/lib/chess-ai.ts:178-213 | The chooser returns no move exactly when there is no legal move, or when the game is over and the search decides. |
| `EngineAI.FinishedGameYieldsNoSearchMove` | src/lib/chess-ai.ts:132-134 | In a finished game the search tiers return no move, even when legal moves remain. |
| `HeuristicAI.Pool` | src/lib/chess-utils.ts:48-93 | The pool is non-empty exactly when there are legal moves, and holds only legal moves. Easy draws from all moves. Medium, with the coin up and a capture on offer, draws from exactly the captures. Hard, in the same case with a capture of a queen, rook, bishop or knight, draws from exactly those captures. Expert, with the first coin up and a checking move on offer, draws from exactly the checking moves. Otherwise, with the second coin up and a capture on offer, it draws from exactly the captures. In every other case the pool is all the legal moves. |
| `HeuristicAI.Choose` | src/lib/chess-utils.ts:41-96 | No move exactly when there is no legal move. Otherwise the SAN of a legal move from the pool. |
| `HeuristicAI.GenerateAIMove` | src/lib/chess-utils.ts:41-96 | The picker, with checking moves including mates: no move exactly when there is no legal move, otherwise the SAN of a legal move. At Easy it is the drawn move. |
| `HeuristicAI.GenerateAIMoveAsWritten` | src/lib/chess-utils.ts:76-90 | The picker with the code's '+'-only check test: no move exactly when there is no legal move, otherwise a legal move. |
| `HeuristicAI.EveryMoveCanBeChosen` | src/lib/chess-utils.ts:49-92 | At every tier, with the coins down, the drawn legal move is played, so every legal move can be chosen. |
| `HeuristicAI.PreferenceWithoutCandidatesIsUniform` | src/lib/chess-utils.ts:53-75 | With no capture on offer Medium plays as Easy does. With no capture of a queen, rook, bishop or knight on offer, Hard plays as Easy does. |
| `HeuristicAI.ExpertPrefersCheckOrMate` | src/lib/chess-utils.ts:80-84 | At Expert with the first coin up and a checking or mating move on offer, the move played gives check or mate. |
| `HeuristicAI.AsWrittenExpertMissesMate` | src/lib/chess-utils.ts:80-89 | As written, with the mate Qh7# and the king move Kf1 on offer and both coins up, Expert can play Kf1. |
| `HeuristicAI.ExpertPlaysMate` | src/lib/chess-utils.ts:80-84 | As intended, in the same position Expert plays Qh7#. |
| `Material.MaterialValue` | src/lib/chess-utils.ts:109-116 | Values are at most 9, and only the king is worth nothing. |
| `Material.MaterialBalance` | src/lib/chess-utils.ts:119-138 | The balance lies between -576 and 576. |
| `Material.MaterialIsCountWeighted` | src/lib/chess-utils.ts:107-139 | The balance is the sum over piece kinds of the value (p=1, n=3, b=3, r=5, q=9, k=0) times White's count minus Black's count. Placement plays no part. |
| `Material.SwapColorsNegatesMaterial` | src/lib/chess-utils.ts:124-136 | Swapping the colour of every piece negates the balance. |
| `Material.MirrorNegatesMaterial` | src/lib/chess-utils.ts:124-136 | Mirroring the ranks and swapping the colours negates the balance. |
| `Material.MaterialIgnoresGameState` | src/lib/chess-utils.ts:107-139 | No terminal shortcut: positions with the same board evaluate alike, whatever the side to move, the game status or the moves. |
| `BoardView.Convert` | src/lib/chess-utils.ts:28-38 | Without flipping, the input comes back unchanged. When flipped, the result is a file unit followed by one digit or "NaN". An empty input gives code 0 followed by "NaN". The file is the fixed sum minus the first code, modulo 2^16. |
| `BoardView.ParseSingle` | src/lib/chess-utils.ts:34 | `parseInt` of one character gives its digit value exactly when it is '0' to '9', and NaN otherwise. |
| `BoardView.ConvertAsWritten` | src/lib/chess-utils.ts:28-38 | With the code's sum 219, a flipped square keeps two units and its rank r becomes 9 - r, still within 1..8. |
| `BoardView.AsWrittenTurnsA1IntoZ8` | src/lib/chess-utils.ts:33 | As written, "a1" flipped is "z8", which is not a square. |
| `BoardView.AsWrittenLeavesTheBoard` | src/lib/chess-utils.ts:33 | As written, every flipped square's file lands on "s" to "z", off the board. |
| `BoardView.AsWrittenFlipIsInvolution` | src/lib/chess-utils.ts:31-35 | As written, flipping a square twice still gives it back. |
| `BoardView.ConvertChessPosition` | src/lib/chess-utils.ts:28-38 | With the intended sum 201, a flipped square is a square. The file index i becomes 7 - i and rank r becomes 9 - r. |
| `BoardView.FlipIsInvolution` | src/lib/chess-utils.ts:30-35 | Flipping a square twice gives it back. |
| `BoardView.FlipIsInjective` | src/lib/chess-utils.ts:30-35 | Distinct squares stay distinct once flipped. |
| `Sounds.SoundFor` | src/lib/audio.ts:56-70 | Checkmate if and only if mate. Check if and only if check without mate. Capture if and only if neither and flag 'c'. Castle if and only if none of those and a castle flag. Promote if and only if none of those and flag 'p'. Never draw, illegal or notify. |
| `Sounds.SoundIsMostUrgentCandidate` | src/lib/audio.ts:56-70 | The sound is the first entry of the priority list of sounds whose conditions hold, with a plain move always qualifying. |
| `Sounds.SoundForMoveAsWritten` | src/lib/audio.ts:63-64 | As written, the castle sound plays exactly when there is no mate, no check, no 'c' flag and a 'k' flag. |
| `Sounds.AsWrittenQueensideCastleIsPlainMove` | src/lib/audio.ts:63-68 | As written, a queenside castle (flag 'q') without check plays the plain move sound. |
| `Sounds.SoundForMove` | src/lib/audio.ts:63-64 | As intended, the castle sound plays exactly when there is no mate, no check, no 'c' flag, and a 'k' or 'q' flag. |
| `Sounds.CheckOverridesFlags` | src/lib/audio.ts:57-60 | Under check or mate, the move's flags play no part. |
| `Sounds.FlagExamples` | src/lib/audio.ts:61-69 | A capturing promotion ("cp") sounds like a capture. A quiet promotion ("np") sounds like a promotion. A queenside castle ("q") sounds like a castle. Missing flags give the plain move sound. |

## Left out

- The rules engine: legal-move generation, move application, FEN copying and the checkmate, draw and check predicates. An explicit game tree stands in for it. Results that need "every unfinished position has a legal move" take it as the `Consistent` hypothesis, because the tree itself does not enforce it.
- Randomness: each `Math.random()` outcome is a parameter, and the probabilities (0.5, 0.7, 0.8, 0.9) are not modelled. A drawn index is taken modulo the pool's length. The code's `Math.floor(Math.random() * n)` is always below n, so this loses nothing.
- The `default` branches of both `generateAIMove` switches: the tiers are a closed datatype, so they cannot be reached.
- `getLegalMoves` (src/lib/chess-utils.ts:99-104): a one-line projection of the rules engine's move list.
- `playSound`, `preloadSounds` and the `soundPaths` table of sound files (src/lib/audio.ts:18-54): audio I/O, its cache and the file names it loads. `playSoundForMove` is modelled as a function from the move's flags and the two status flags to the sound kind. A call with a `null` move throws in the code; the model takes the flags as an `Option`.
- JavaScript numbers: all scores here are small integers, so they are modelled as unbounded integers. `±Infinity` is `ExtInt`.
- Search termination needs no proof effort: the depth decreases on every recursive call.
- `Search.AlphaBetaFailSoft`: assumes alpha < beta. Every call the code makes satisfies this, since the loops stop as soon as beta <= alpha.
- `BoardView.Convert`: strings are UTF-16 code units and only the first two units of a flipped position are read, as in the code. `parseInt` is modelled for the one-unit strings that `charAt` returns, not in general.
- The user interface, networking, persistence, timers, names and the other sound library are outside this model.

## Findings

| source | as written | input that shows it | evidently intended | confidence | as-written member | corrected member |
|---|---|---|---|---|---|---|
| src/lib/chess-utils.ts:33 | the flipped file is `219 - code`, so 'a' becomes 'z' | "a1" flipped gives "z8" (`BoardView.AsWrittenTurnsA1IntoZ8`) | `201 - code`, so 'a' becomes 'h' as the comment says | high, not executed (the function has no caller) | `BoardView.ConvertAsWritten` | `BoardView.ConvertChessPosition` |
| src/lib/chess-utils.ts:80 | Expert's checking moves are those whose SAN contains '+', but the rules engine ends a mating move with '#' | moves Qh7# and Kf1, both coins up: Kf1 can be played (`HeuristicAI.AsWrittenExpertMissesMate`) | mates count as checking moves, so Qh7# is preferred (`HeuristicAI.ExpertPlaysMate`) | medium, not executed | `HeuristicAI.GenerateAIMoveAsWritten` | `HeuristicAI.GenerateAIMove` |
| src/lib/audio.ts:63 | only flag 'k' (kingside castle) selects the castle sound | flags "q", no check: plain move sound (`Sounds.AsWrittenQueensideCastleIsPlainMove`) | 'k' or 'q' selects the castle sound | medium, not executed | `Sounds.SoundForMoveAsWritten` | `Sounds.SoundForMove` |
