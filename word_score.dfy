/**
 * The scoring engine of src/word-score.js as methods: loops that collect,
 * walk and accumulate, each proved to compute the corresponding function
 * of module Rules.
 */
module WordScore {
  import opened Board
  import opened Rules

  /** Sum of the raw values of the lettered squares of `row`. */
  function RowTotal(values: LetterValues, row: seq<Square>): nat
    requires RowValued(values, row)
  {
    if row == [] then 0
    else
      var last := row[|row| - 1];
      RowTotal(values, row[..|row| - 1]) + (if HasLetter(last) then values[Lower(last.letter)] else 0)
  }

  /** Sum of the raw values of every lettered square of the board. */
  function GridTotal(values: LetterValues, g: Grid): nat
    requires Valued(values, g)
  {
    if g == [] then 0 else GridTotal(values, g[..|g| - 1]) + RowTotal(values, g[|g| - 1])
  }

  /** The raw value of every tile on the board, whatever its square and lock state. */
  method CountAllTileValues(g: Grid, values: LetterValues) returns (score: nat)
    requires Valued(values, g)
    ensures score == GridTotal(values, g)
  {
    score := 0;
    for row := 0 to |g|
      invariant score == GridTotal(values, g[..row])
    {
      var rowSquares := g[row];
      assert RowValued(values, rowSquares);
      var rowScore := 0;
      for col := 0 to |rowSquares|
        invariant score + rowScore == GridTotal(values, g[..row]) + RowTotal(values, rowSquares[..col])
      {
        if HasLetter(rowSquares[col]) {
          rowScore := rowScore + values[Lower(rowSquares[col].letter)];
        }
        assert rowSquares[..col + 1][..col] == rowSquares[..col];
      }
      score := score + rowScore;
      assert rowSquares[..|rowSquares|] == rowSquares;
      assert g[..row + 1][..row] == g[..row];
    }
    assert g[..|g|] == g;
  }

  /** The lettered, unlocked squares, row by row. */
  method GetCurrentLetters(g: Grid) returns (positions: seq<Pos>)
    ensures positions == CurrentLetters(g)
  {
    positions := [];
    for row := 0 to |g|
      invariant positions == CurrentBefore(g, row)
    {
      for col := 0 to |g[row]|
        invariant positions == CurrentBefore(g, row) + RowCurrent(g, row, col)
      {
        if HasLetter(g[row][col]) && !g[row][col].locked {
          positions := positions + [Pos(row, col)];
        }
      }
    }
  }

  /** Whether every square between the first and the last of `positions`, on the first one's line, has a letter. */
  method ContinuousOnLine(g: Grid, a: Axis, positions: seq<Pos>) returns (ok: bool)
    requires IsGrid(g) && forall k | 0 <= k < |positions| :: InBounds(g, positions[k])
    ensures ok == GapFree(g, a, positions)
  {
    if |positions| < 2 {
      return true;
    }
    var x := Across(a, positions[0]);
    var first := Along(a, positions[0]);
    var last := Along(a, positions[|positions| - 1]);
    var i := first;
    while i <= last
      invariant first <= i
      invariant forall k | first <= k < i && k <= last :: Lettered(g, a, x, k)
      decreases last as int - i
    {
      if !Lettered(g, a, x, i) {
        return false;
      }
      i := i + 1;
    }
    return true;
  }

  /** The maximal run of lettered squares through `position` along axis `a`. */
  method WordPositions(g: Grid, a: Axis, position: Pos) returns (result: seq<Pos>)
    requires IsGrid(g) && InBounds(g, position)
    ensures result == Run(g, a, position)
  {
    var x := Across(a, position);
    var i: nat := Along(a, position);
    while i > 0 && Lettered(g, a, x, i - 1)
      invariant i <= Along(a, position)
      invariant forall k | i <= k < Along(a, position) :: Lettered(g, a, x, k)
    {
      i := i - 1;
    }
    var s := i;
    RunStartUnique(g, a, x, Along(a, position), s);
    result := [Place(a, x, i)];
    while i + 1 < Extent(g, a) && Lettered(g, a, x, i + 1)
      invariant s <= i
      invariant forall k | s < k <= i :: Lettered(g, a, x, k)
      invariant result == Segment(a, x, s, i - s + 1)
      decreases Extent(g, a) - i
    {
      SegmentGrows(a, x, s, i + 1 - s);
      i := i + 1;
      result := result + [Place(a, x, i)];
    }
    RunEndUnique(g, a, x, s, i);
  }

  /** The word on `positions` and every word stemming from one of its unlocked squares. */
  method CollectWords(g: Grid, a: Axis, positions: seq<Pos>) returns (words: seq<Word>)
    requires IsGrid(g) && forall k | 0 <= k < |positions| :: InBounds(g, positions[k])
    ensures words == Collected(g, a, positions, |positions|)
  {
    words := [Word(GetWord(g, positions), positions)];
    for k := 0 to |positions|
      invariant words == Collected(g, a, positions, k)
    {
      var pos := positions[k];
      assert Unlocked(g, pos) == !At(g, pos).locked;
      if !At(g, pos).locked {
        var stem := WordPositions(g, Perp(a), pos);
        if |stem| > 1 {
          words := words + [Word(GetWord(g, stem), stem)];
        }
      }
    }
  }

  /** The words of the play read along axis `a`, or none. */
  method EvaluateLine(g: Grid, a: Axis, currentLetters: seq<Pos>) returns (words: seq<Word>)
    requires IsGrid(g) && forall k | 0 <= k < |currentLetters| :: InBounds(g, currentLetters[k])
    ensures words == Evaluation(g, a, currentLetters)
  {
    if |currentLetters| == 1 && !HasNeighbor(g, a, currentLetters[0]) {
      return [];
    }
    if |currentLetters| < 1 || !AllOnSameLine(a, currentLetters) {
      return [];
    }
    var continuous := ContinuousOnLine(g, a, currentLetters);
    if !continuous {
      return [];
    }
    var positions := WordPositions(g, a, currentLetters[0]);
    RunShape(g, a, currentLetters[0]);
    words := CollectWords(g, a, positions);
  }

  /** Scores every word: premiums count on unlocked squares only. */
  method ScoreWords(g: Grid, values: LetterValues, words: seq<Word>) returns (scored: seq<ScoredWord>)
    requires forall j | 0 <= j < |words| :: Scorable(g, values, words[j].positions)
    ensures |scored| == |words|
    ensures forall j | 0 <= j < |words| ::
      scored[j].word == words[j] && scored[j].score == WordValue(g, values, words[j].positions)
  {
    scored := [];
    for j := 0 to |words|
      invariant |scored| == j
      invariant forall i | 0 <= i < j ::
        scored[i].word == words[i] && scored[i].score == WordValue(g, values, words[i].positions)
    {
      var ps := words[j].positions;
      var multiplier := 1;
      var score := 0;
      for k := 0 to |ps|
        invariant multiplier == WordMultiplier(g, ps[..k])
        invariant score == LetterSum(g, values, ps[..k])
      {
        ScoreStep(g, values, ps, k);
        var square := At(g, ps[k]);
        var value := values[Lower(square.letter)];
        if !square.locked {
          match square.kind
          case DoubleLetter => value := value * 2;
          case TripleLetter => value := value * 3;
          case DoubleWord => multiplier := multiplier * 2;
          case TripleWord => multiplier := multiplier * 3;
          case Plain =>
        }
        score := score + value;
      }
      assert ps[..|ps|] == ps;
      score := score * multiplier;
      scored := scored + [ScoredWord(words[j], score)];
    }
  }

  /**
   * Validates the play on board `g`, extracts its words (as a row first, as
   * a column only when the row gives none), and scores them.
   */
  method CalculateCurrentWordScore(g: Grid, values: LetterValues) returns (result: PlayResult)
    requires IsGrid(g) && Valued(values, g)
    ensures result == Play(g, values)
  {
    var currentLetters := GetCurrentLetters(g);
    var words := EvaluateLine(g, Horizontal, currentLetters);
    if |words| == 0 {
      words := EvaluateLine(g, Vertical, currentLetters);
    }
    assert words == Words(g);
    WordsScorable(g, values);
    var scored := ScoreWords(g, values, words);
    assert scored == ScoreAll(g, values, words);
    result := PlayResult(scored, SumScores(scored));
  }
}
