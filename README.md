# scrabble-score in Dafny

A verified model of the scoring engine of the scrabble-score web app, and of
the grid updates behind its game handlers.

The board is a rectangular grid of squares. Each square has a premium kind,
a letter (empty when no tile is there) and a `locked` flag. A square is locked
once the turn that placed its tile has been committed. The engine
(`src/word-score.js`) works in three stages:

- **Validator.** It finds the *current letters*: the lettered, unlocked squares, in row-major order. They must form one gap-free row or, failing that, one gap-free column. A single letter counts only when it has a lettered neighbour along that line.
- **Extractor.** It grows the play into the maximal run of lettered squares along its axis. It then adds every perpendicular run of two or more squares through an unlocked square of that run.
- **Scorer.** Letter and word premiums count only on unlocked squares. The tile total adds up raw letter values over the whole board.

The game (`src/index.js`) does three things. It builds the board from a
layout, places a typed letter on an unlocked square, and commits a turn by
locking every lettered square.

Files:

- `board.dfy` (module `Board`): squares, the grid, positions, and the `Axis` (Horizontal or Vertical). The source's duplicated row and column functions become one member each, with an `Axis` parameter.
- `rules.dfy` (module `Rules`): the engine's rules as functions:
  - `CurrentLetters`, `ValidLine` and `GapFree`;
  - `Run` (the maximal run through a square) and `Collected` (the words collected from a run);
  - `Evaluation` and `Words`;
  - `LetterSum`, `WordMultiplier`, `WordValue` and `Play`.
- `word_score.dfy` (module `WordScore`): the source's loops as methods, each proved to compute the matching function of `Rules`.
- `properties.dfy` (module `Properties`): what the engine promises, proved about those functions.
- `game.dfy` (module `Game`): the initial board, placing a letter, and committing a turn.

Two consequences of the code are worth stating, because a looser reading of
the game's rules suggests otherwise. The model follows the code in both.

- The first word of a play is never a single square. A lone current letter is read along an axis only when it has a lettered neighbour on that axis, so its run has two or more squares (`Properties.PrimaryWord`).
- Perpendicular words are looked for at every unlocked square of the extended run, not only at the placed tiles. These are the same squares: an unlocked lettered square is a current letter.

## Model

| member | source | states |
|---|---|---|
| Rules.HasNeighbor | src/word-score.js:65-85 | the square just before or just after the position along the axis is on the board and has a letter |
| Rules.AllOnSameLine | src/word-score.js:99-105 | every position lies on the line of the first one |
| Rules.GetWord | src/word-score.js:156-159 | the letters of the positions' squares, joined in order |
| Rules.CurrentLetters | src/word-score.js:87-97 | every position it lists is on the board, lettered and unlocked |
| Rules.RunStartStops | src/word-score.js:144-146 | the backward walk stops at the first square whose predecessor is off the board or has no letter, and every square it passed has a letter |
| Rules.RunEndStops | src/word-score.js:149-152 | the forward walk passes only lettered squares and stops where the next square is off the board or has no letter |
| Rules.RunShape | src/word-score.js:139-176 | the run through a square is consecutive on that square's line, lettered except possibly an unlettered start square, holds the square when it has a letter, and is maximal at both ends |
| Rules.Collected | src/word-score.js:178-184 | the first collected word is the run itself with its letters read in order |
| Rules.StemSource | src/word-score.js:186-195 | every further collected word is the perpendicular run, two or more squares long, through an unlocked square of the run |
| Rules.StemCollected | src/word-score.js:186-195 | the perpendicular run of two or more squares through each unlocked square of the run is collected |
| Rules.EvaluationShape | src/word-score.js:35-63 | reading along an axis gives words exactly when the current letters form a legal line that way, and then gives the words collected from the run through the first current letter |
| Rules.WordsScorable | src/word-score.js:220-227 | every square of every extracted word has a letter with a value |
| Rules.ScoreStep | src/word-score.js:224-248 | each square adds its letter value times its letter premium to the letter sum and multiplies in its word premium |
| WordScore.CountAllTileValues | src/word-score.js:4-13 | the result is the sum of the raw values of every lettered square of the board |
| WordScore.GetCurrentLetters | src/word-score.js:87-97 | the result is the list of lettered, unlocked squares in row-major order |
| WordScore.ContinuousOnLine | src/word-score.js:107-137 | true exactly when there are fewer than two positions or every square from the first to the last position, on the first position's line, has a letter |
| WordScore.WordPositions | src/word-score.js:139-176 | the result is the maximal run through the start position |
| WordScore.CollectWords | src/word-score.js:178-218 | the result is the run's word, then the perpendicular words through its unlocked squares in order |
| WordScore.EvaluateLine | src/word-score.js:35-63 | the result is the words of the play read along the axis, or none when the play is not legal that way |
| WordScore.ScoreWords | src/word-score.js:220-253 | each word's score is its premium-weighted letter sum times its word multiplier, counting premiums only on unlocked squares |
| WordScore.CalculateCurrentWordScore | src/word-score.js:21-33 | the result is the scored words of the play, the row reading first, and their total |
| Properties.CurrentLettersExactly | src/word-score.js:87-97 | a position is a current letter if and only if it is on the board, lettered and unlocked |
| Properties.CurrentLettersIncreasing | src/word-score.js:87-97 | the current letters are in strictly increasing row-major order |
| Properties.NoCurrentSquares | src/word-score.js:87-97 | a board with no lettered unlocked square has no current letters |
| Properties.NoWordsNoScore | src/word-score.js:27-32 | with no words the result is empty with total 0 |
| Properties.PlayIsValidExactly | src/word-score.js:21-63 | the play has words if and only if its current letters form a legal row or a legal column, with one scored word per extracted word |
| Properties.RowFirst | src/word-score.js:22-23 | a legal row is read as a row |
| Properties.ColumnFallback | src/word-score.js:23-26 | the column is read only when the row reading is not legal, and then gives words exactly when the column is legal |
| Properties.WordsAlongAxis | src/word-score.js:21-26 | the words are those read along the play's axis, which is a legal line when there are words |
| Properties.NoTilesNoScore | src/word-score.js:55-57 | with no current letters the result is empty with total 0 |
| Properties.IsolatedTileNoScore | src/word-score.js:51-54 | one current letter with no lettered neighbour in its row or column gives an empty result |
| Properties.ScatteredTilesNoScore | src/word-score.js:99-105 | current letters on neither one row nor one column give an empty result |
| Properties.RowAndColumnExclusive | src/word-score.js:99-105 | two or more current letters never share both a row and a column |
| Properties.GapNoScore | src/word-score.js:107-137 | current letters on one line with an empty square between the first and the last give an empty result |
| Properties.RunIndexOf | src/word-score.js:139-154 | the run through a lettered square holds that square |
| Properties.RunUnique | src/word-score.js:139-176 | any consecutive, lettered, maximal run through a lettered square is the one the walk computes |
| Properties.NeighborLengthensRun | src/word-score.js:65-85 | a lettered neighbour along the axis makes the run through a lettered square two or more squares long |
| Properties.RunCoversLine | src/word-score.js:107-154 | every current letter of a legal line lies in the run through the first one |
| Properties.LineRunLength | src/word-score.js:50-63 | the run of a legal line has two or more squares |
| Properties.PrimaryWord | src/word-score.js:61-62 | the first word is the maximal run through the first current letter along the play's axis, read in order, two or more squares long, holding every current letter |
| Properties.FurtherWord | src/word-score.js:186-195 | every later word is the perpendicular run, two or more squares long and read in order, through an unlocked square of the first word |
| Properties.StemFound | src/word-score.js:186-195 | every perpendicular run of two or more squares through an unlocked square of the first word is one of the words |
| Properties.WordHasUnlockedSquare | src/word-score.js:178-218 | every word holds an unlocked square |
| Properties.GetWordReads | src/word-score.js:156-159 | when each square holds one character, a word's text has one character per square, the squares' letters in order |
| Properties.LetterSumAtLeastRaw | src/word-score.js:227-236 | letter premiums never lower a word's letter sum below its raw sum |
| Properties.WordMultiplierPositive | src/word-score.js:222-242 | the word multiplier is at least 1 |
| Properties.ScoreAtLeastRaw | src/word-score.js:220-250 | a word scores at least the sum of its raw letter values |
| Properties.LockedLetterSum | src/word-score.js:228-246 | on locked squares the letter sum is the raw sum and the multiplier is 1 |
| Properties.LockedScoresRaw | src/word-score.js:228-246 | a word of locked squares scores exactly its raw letter values |
| Properties.PlayScores | src/word-score.js:27-32 | each scored word is an extracted word with its value, and the total is the sum of the scores |
| Properties.RowTotalSameLetters | src/word-score.js:6-10 | a row's tile total depends only on its letters |
| Properties.TileTotalIgnoresLocksAndPremiums | src/word-score.js:4-13 | the tile total depends only on the letters, not on locks or premium kinds |
| Game.MarkPremiums | src/index.js:97-99 | each listed (column, row) square becomes a blank square of the given kind, and every other square is kept |
| Game.InitialSquares | src/index.js:80-111 | the board has the layout's rows and columns, blank unlocked squares, and each square has the kind of the last list that names it |
| Game.PremiumExactlyWhereListed | src/index.js:95-108 | a square has a premium if and only if some layout list names it |
| Game.InitialBoardIsEmpty | src/index.js:82-93 | the initial board is rectangular, has no current letters, scores nothing and has tile total 0 |
| Game.BlankRowTotal | src/index.js:88-93 | a row without letters has tile total 0 |
| Game.BlankGridTotal | src/index.js:88-93 | a board of such rows has tile total 0 |
| Game.PlaceLetter | src/index.js:13-22 | a locked square leaves the board unchanged; otherwise only that square changes, taking the upper-cased value and keeping its kind and lock |
| Game.PlaceLetterCurrent | src/index.js:15-20 | placing on an unlocked square makes it a current letter exactly when the value is non-empty, and no other square's standing changes |
| Game.Commit | src/index.js:30-33 | a committed square keeps its kind and letter and is locked exactly when it was locked or has a letter |
| Game.LockUsedSquares | src/index.js:24-37 | the result is the board with every lettered, unlocked square locked |
| Game.CommittedShape | src/index.js:26-29 | a commit keeps the number of rows and the length of every row |
| Game.CommittedSquares | src/index.js:24-37 | after a commit every lettered square is locked, unlettered squares keep their lock, and kinds, letters and dimensions are unchanged |
| Game.CommitIdempotent | src/index.js:24-37 | committing twice is committing once |
| Game.CommitEndsPlay | src/index.js:24-37 | a committed board has no current letters and scores nothing |
| Game.CommitSameLetters | src/index.js:30-33 | a commit keeps every letter |
| Game.CommitKeepsTileTotal | src/index.js:24-37 | a commit does not change the tile total |
| Game.CommittedScoresRaw | src/index.js:24-37 | on a committed board every word scores its raw letter values |

## Left out

- Rendering and React wiring are not modelled: `src/scrabble-view.js`, `useState`/`setSquares`, the score JSX and `ReactDOM.render`. Each handler is modelled as a function or method from the old board to the new one.
- `console.log` in `calculateCurrentWordScore` is I/O and is not modelled. The `total` property attached to the word array becomes the `total` field of `PlayResult`.
- The `rows` and `columns` properties that `initialSquares` attaches to the board array are not modelled. The code shown never reads them, and the first board copy drops them; the grid's own dimensions carry the same facts.
- `src/history.js` is not part of this model. The code shown never uses its undo stack.
- `board-layout.json`, `letter-values` and `scrabble-board` are not part of this model. The layout is a `Layout` parameter and the letter values are a `LetterValues` map parameter. `SquareType` is a five-case datatype.
- An unknown letter (JavaScript `undefined`, then `NaN`) is not modelled. The engine requires every board letter to have a value (`Valued`).
- `toLowerCase`/`toUpperCase` are modelled on ASCII letters only. Other characters are left unchanged.
- Non-rectangular boards are not modelled. The engine requires a rectangular grid (`IsGrid`); the source mixes `squares.length` and `squares[row].length` for bounds.
- InitialSquares: requires every layout coordinate to lie inside the board. With an out-of-range coordinate the source either fails on a missing row or grows a row past its length.
- ScoreWords: writes the scores into new `ScoredWord` values instead of setting `word.score` on the caller's objects. Aliasing of those objects is not modelled.
- PlaceLetter: models the cell update on a plain board value, with the new letter as a parameter. It does not model the DOM event or the React state setter.
