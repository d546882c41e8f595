/**
 * What the scoring engine promises, proved about the functions of module
 * Rules (which the methods of module WordScore compute): which squares are
 * the current letters, when a play scores nothing, which words a legal play
 * makes, and how words are scored.
 */
module Properties {
  import opened Board
  import opened Rules
  import opened WordScore

  // ---------------------------------------------------------------------
  // Current letters.

  lemma {:induction false} RowCurrentHas(g: Grid, r: nat, c: nat, col: nat)
    requires r < |g| && col < c <= |g[r]| && IsCurrent(g[r][col])
    ensures Pos(r, col) in RowCurrent(g, r, c)
    decreases c
  {
    if col < c - 1 {
      RowCurrentHas(g, r, c - 1, col);
    }
  }

  lemma {:induction false} CurrentBeforeHas(g: Grid, r: nat, p: Pos)
    requires r <= |g| && p.row < r && InBounds(g, p) && IsCurrent(At(g, p))
    ensures p in CurrentBefore(g, r)
  {
    if p.row < r - 1 {
      CurrentBeforeHas(g, r - 1, p);
    } else {
      RowCurrentHas(g, r - 1, |g[r - 1]|, p.col);
    }
  }

  /** The current letters are exactly the lettered, unlocked squares of the board. */
  lemma CurrentLettersExactly(g: Grid, p: Pos)
    ensures p in CurrentLetters(g) <==> InBounds(g, p) && IsCurrent(At(g, p))
  {
    if InBounds(g, p) && IsCurrent(At(g, p)) {
      CurrentBeforeHas(g, |g|, p);
    }
  }

  lemma {:induction false} RowCurrentNone(g: Grid, r: nat, c: nat)
    requires r < |g| && c <= |g[r]| && forall k | 0 <= k < c :: !IsCurrent(g[r][k])
    ensures RowCurrent(g, r, c) == []
    decreases c
  {
    if c > 0 {
      RowCurrentNone(g, r, c - 1);
    }
  }

  lemma {:induction false} CurrentBeforeNone(g: Grid, r: nat)
    requires r <= |g| && forall i, k | 0 <= i < r && 0 <= k < |g[i]| :: !IsCurrent(g[i][k])
    ensures CurrentBefore(g, r) == []
  {
    if r > 0 {
      CurrentBeforeNone(g, r - 1);
      RowCurrentNone(g, r - 1, |g[r - 1]|);
    }
  }

  /** A board with no lettered, unlocked square has no current letters. */
  lemma NoCurrentSquares(g: Grid)
    requires forall i, k | 0 <= i < |g| && 0 <= k < |g[i]| :: !IsCurrent(g[i][k])
    ensures CurrentLetters(g) == []
  {
    CurrentBeforeNone(g, |g|);
  }

  lemma ConcatIncreasing(xs: seq<Pos>, ys: seq<Pos>)
    requires StrictlyIncreasing(xs) && StrictlyIncreasing(ys)
    requires forall i, j | 0 <= i < |xs| && 0 <= j < |ys| :: Before(xs[i], ys[j])
    ensures StrictlyIncreasing(xs + ys)
  {
    var zs := xs + ys;
    forall i, j | 0 <= i < j < |zs|
      ensures Before(zs[i], zs[j])
    {
      if j < |xs| {
        assert zs[i] == xs[i] && zs[j] == xs[j];
      } else if i < |xs| {
        assert zs[i] == xs[i] && zs[j] == ys[j - |xs|];
      } else {
        assert zs[i] == ys[i - |xs|] && zs[j] == ys[j - |xs|];
      }
    }
  }

  lemma {:induction false} RowCurrentIncreasing(g: Grid, r: nat, c: nat)
    requires r < |g| && c <= |g[r]|
    ensures StrictlyIncreasing(RowCurrent(g, r, c))
    decreases c
  {
    if c > 0 {
      RowCurrentIncreasing(g, r, c - 1);
      ConcatIncreasing(RowCurrent(g, r, c - 1), if IsCurrent(g[r][c - 1]) then [Pos(r, c - 1)] else []);
    }
  }

  lemma {:induction false} CurrentBeforeIncreasing(g: Grid, r: nat)
    requires r <= |g|
    ensures StrictlyIncreasing(CurrentBefore(g, r))
  {
    if r > 0 {
      CurrentBeforeIncreasing(g, r - 1);
      RowCurrentIncreasing(g, r - 1, |g[r - 1]|);
      ConcatIncreasing(CurrentBefore(g, r - 1), RowCurrent(g, r - 1, |g[r - 1]|));
    }
  }

  /** The current letters come in strictly increasing row-major order. */
  lemma CurrentLettersIncreasing(g: Grid)
    ensures StrictlyIncreasing(CurrentLetters(g))
  {
    CurrentBeforeIncreasing(g, |g|);
  }

  // ---------------------------------------------------------------------
  // Which plays score.

  /** The axis the play is read along: the row, unless the row reading gives no words. */
  function PlayAxis(g: Grid): Axis
    requires IsGrid(g)
  {
    if Evaluation(g, Horizontal, CurrentLetters(g)) != [] then Horizontal else Vertical
  }

  /** A board without words scores nothing. */
  lemma NoWordsNoScore(g: Grid, values: LetterValues)
    requires IsGrid(g) && Valued(values, g) && Words(g) == []
    ensures Play(g, values) == PlayResult([], 0)
  {
    assert ScoreAll(g, values, []) == [];
  }

  /**
   * The play has words exactly when its current letters form a legal row or
   * a legal column, and then one scored word per extracted word.
   */
  lemma PlayIsValidExactly(g: Grid, values: LetterValues)
    requires IsGrid(g) && Valued(values, g)
    ensures Play(g, values).words != [] <==>
      ValidLine(g, Horizontal, CurrentLetters(g)) || ValidLine(g, Vertical, CurrentLetters(g))
    ensures |Play(g, values).words| == |Words(g)|
  {
    EvaluationShape(g, Horizontal, CurrentLetters(g));
    EvaluationShape(g, Vertical, CurrentLetters(g));
  }

  /** The row reading wins: when the current letters form a legal row, the words are read along it. */
  lemma RowFirst(g: Grid)
    requires IsGrid(g) && ValidLine(g, Horizontal, CurrentLetters(g))
    ensures PlayAxis(g) == Horizontal && Words(g) != []
  {
    EvaluationShape(g, Horizontal, CurrentLetters(g));
  }

  /** The column is read only when the row reading is not legal. */
  lemma ColumnFallback(g: Grid)
    requires IsGrid(g) && !ValidLine(g, Horizontal, CurrentLetters(g))
    ensures PlayAxis(g) == Vertical
    ensures Words(g) != [] <==> ValidLine(g, Vertical, CurrentLetters(g))
  {
    EvaluationShape(g, Horizontal, CurrentLetters(g));
    EvaluationShape(g, Vertical, CurrentLetters(g));
  }

  /** The words are those read along the play's axis, which is then a legal line. */
  lemma WordsAlongAxis(g: Grid)
    requires IsGrid(g)
    ensures Words(g) == Evaluation(g, PlayAxis(g), CurrentLetters(g))
    ensures Words(g) != [] ==> ValidLine(g, PlayAxis(g), CurrentLetters(g))
  {
    EvaluationShape(g, PlayAxis(g), CurrentLetters(g));
  }

  /** With no current letters the play scores nothing. */
  lemma NoTilesNoScore(g: Grid, values: LetterValues)
    requires IsGrid(g) && Valued(values, g) && CurrentLetters(g) == []
    ensures Play(g, values) == PlayResult([], 0)
  {
    PlayIsValidExactly(g, values);
    NoWordsNoScore(g, values);
  }

  /** A single current letter with no lettered neighbour in its row or column scores nothing. */
  lemma IsolatedTileNoScore(g: Grid, values: LetterValues)
    requires IsGrid(g) && Valued(values, g) && |CurrentLetters(g)| == 1
    requires !HasNeighbor(g, Horizontal, CurrentLetters(g)[0]) && !HasNeighbor(g, Vertical, CurrentLetters(g)[0])
    ensures Play(g, values) == PlayResult([], 0)
  {
    PlayIsValidExactly(g, values);
    NoWordsNoScore(g, values);
  }

  /** Current letters sharing neither one row nor one column score nothing. */
  lemma ScatteredTilesNoScore(g: Grid, values: LetterValues)
    requires IsGrid(g) && Valued(values, g)
    requires !AllOnSameLine(Horizontal, CurrentLetters(g)) && !AllOnSameLine(Vertical, CurrentLetters(g))
    ensures Play(g, values) == PlayResult([], 0)
  {
    PlayIsValidExactly(g, values);
    NoWordsNoScore(g, values);
  }

  /** Two or more current letters never share both a row and a column. */
  lemma RowAndColumnExclusive(g: Grid)
    requires |CurrentLetters(g)| >= 2
    ensures !(AllOnSameLine(Horizontal, CurrentLetters(g)) && AllOnSameLine(Vertical, CurrentLetters(g)))
  {
    CurrentLettersIncreasing(g);
    assert Before(CurrentLetters(g)[0], CurrentLetters(g)[1]);
  }

  /** Current letters on one line with an empty square between the first and the last score nothing. */
  lemma GapNoScore(g: Grid, values: LetterValues, a: Axis)
    requires IsGrid(g) && Valued(values, g)
    requires AllOnSameLine(a, CurrentLetters(g)) && !GapFree(g, a, CurrentLetters(g))
    ensures Play(g, values) == PlayResult([], 0)
  {
    RowAndColumnExclusive(g);
    assert !AllOnSameLine(Perp(a), CurrentLetters(g));
    PlayIsValidExactly(g, values);
    NoWordsNoScore(g, values);
  }

  // ---------------------------------------------------------------------
  // Runs.

  /** A run through a lettered square holds that square; `m` is its index. */
  lemma RunIndexOf(g: Grid, a: Axis, p: Pos) returns (m: nat)
    requires IsGrid(g) && InBounds(g, p) && HasLetter(At(g, p))
    ensures m < |Run(g, a, p)| && Run(g, a, p)[m] == p
  {
    RunShape(g, a, p);
    var r := Run(g, a, p);
    m := Along(a, p) - Along(a, r[0]);
    assert Across(a, r[m]) == Across(a, p) && Along(a, r[m]) == Along(a, p);
  }

  /** A run through a lettered square is the only one: Run is the unique run through it. */
  lemma RunUnique(g: Grid, a: Axis, p: Pos, r: seq<Pos>)
    requires IsGrid(g) && InBounds(g, p) && HasLetter(At(g, p)) && IsRunThrough(g, a, p, r)
    ensures r == Run(g, a, p)
  {
    var x := Across(a, p);
    var s := Along(a, r[0]);
    var e := s + |r| - 1;
    forall k | s <= k <= e
      ensures Lettered(g, a, x, k)
    {
      assert Across(a, r[k - s]) == x && Along(a, r[k - s]) == k;
    }
    RunStartUnique(g, a, x, Along(a, p), s);
    assert Along(a, r[|r| - 1]) == e;
    RunEndUnique(g, a, x, s, e);
    forall k | 0 <= k < |r|
      ensures r[k] == Run(g, a, p)[k]
    {
      assert Across(a, r[k]) == x && Along(a, r[k]) == s + k;
    }
  }

  /** A lettered square next to `p` along `a` makes the run through `p` at least two squares long. */
  lemma NeighborLengthensRun(g: Grid, a: Axis, p: Pos)
    requires IsGrid(g) && InBounds(g, p) && HasLetter(At(g, p)) && HasNeighbor(g, a, p)
    ensures |Run(g, a, p)| >= 2
  {
    RunShape(g, a, p);
  }

  /**
   * A legal line of increasing current letters lies within the run through
   * its first letter, which is then at least two squares long.
   */
  lemma RunCoversLine(g: Grid, a: Axis, cur: seq<Pos>, k: nat) returns (m: nat)
    requires IsGrid(g) && forall i | 0 <= i < |cur| :: InBounds(g, cur[i]) && IsCurrent(At(g, cur[i]))
    requires StrictlyIncreasing(cur) && ValidLine(g, a, cur) && k < |cur|
    ensures m < |Run(g, a, cur[0])| && Run(g, a, cur[0])[m] == cur[k]
  {
    var r := Run(g, a, cur[0]);
    RunShape(g, a, cur[0]);
    var s := Along(a, r[0]);
    var last := Along(a, cur[|cur| - 1]);
    if k > 0 {
      assert Before(cur[0], cur[k]);
    }
    if k < |cur| - 1 {
      assert Before(cur[k], cur[|cur| - 1]);
    }
    m := Along(a, cur[k]) - s;
    assert Across(a, r[m]) == Across(a, cur[k]) && Along(a, r[m]) == Along(a, cur[k]);
  }

  /** The run along a legal line of current letters has at least two squares. */
  lemma LineRunLength(g: Grid, a: Axis, cur: seq<Pos>)
    requires IsGrid(g) && forall i | 0 <= i < |cur| :: InBounds(g, cur[i]) && IsCurrent(At(g, cur[i]))
    requires StrictlyIncreasing(cur) && ValidLine(g, a, cur)
    ensures |Run(g, a, cur[0])| >= 2
  {
    if |cur| == 1 {
      NeighborLengthensRun(g, a, cur[0]);
    } else {
      var m0 := RunCoversLine(g, a, cur, 0);
      var m1 := RunCoversLine(g, a, cur, 1);
      assert Before(cur[0], cur[1]);
    }
  }

  // ---------------------------------------------------------------------
  // The words of a legal play.

  /**
   * The first word of a play is the maximal run through the first current
   * letter along the play's axis, read in order, at least two squares long,
   * and it holds every current letter.
   */
  lemma PrimaryWord(g: Grid)
    requires IsGrid(g) && Words(g) != []
    ensures Words(g)[0].positions == Run(g, PlayAxis(g), CurrentLetters(g)[0])
    ensures IsRunThrough(g, PlayAxis(g), CurrentLetters(g)[0], Words(g)[0].positions)
    ensures Words(g)[0].text == GetWord(g, Words(g)[0].positions)
    ensures |Words(g)[0].positions| >= 2
    ensures forall k | 0 <= k < |CurrentLetters(g)| :: CurrentLetters(g)[k] in Words(g)[0].positions
  {
    var cur := CurrentLetters(g);
    var a := PlayAxis(g);
    WordsAlongAxis(g);
    EvaluationShape(g, a, cur);
    CurrentLettersIncreasing(g);
    RunShape(g, a, cur[0]);
    LineRunLength(g, a, cur);
    forall k | 0 <= k < |cur|
      ensures cur[k] in Words(g)[0].positions
    {
      var m := RunCoversLine(g, a, cur, k);
    }
  }

  /**
   * Every word after the first is the perpendicular run, at least two
   * squares long, through an unlocked square of the first word; `i` is the
   * index of that square in the first word.
   */
  lemma FurtherWord(g: Grid, j: nat) returns (i: nat)
    requires IsGrid(g) && 1 <= j < |Words(g)|
    ensures i < |Words(g)[0].positions| && Unlocked(g, Words(g)[0].positions[i])
    ensures Words(g)[j].positions == Run(g, Perp(PlayAxis(g)), Words(g)[0].positions[i])
    ensures |Words(g)[j].positions| >= 2 && Words(g)[j].text == GetWord(g, Words(g)[j].positions)
  {
    var cur := CurrentLetters(g);
    var a := PlayAxis(g);
    WordsAlongAxis(g);
    EvaluationShape(g, a, cur);
    var r := Run(g, a, cur[0]);
    i := StemSource(g, a, r, |r|, j);
  }

  /**
   * Every perpendicular run of two or more squares through an unlocked
   * square of the first word is one of the words; `j` is its index.
   */
  lemma StemFound(g: Grid, i: nat) returns (j: nat)
    requires IsGrid(g) && Words(g) != [] && i < |Words(g)[0].positions|
    requires Unlocked(g, Words(g)[0].positions[i])
    requires |Run(g, Perp(PlayAxis(g)), Words(g)[0].positions[i])| >= 2
    ensures 1 <= j < |Words(g)| && Words(g)[j].positions == Run(g, Perp(PlayAxis(g)), Words(g)[0].positions[i])
  {
    var cur := CurrentLetters(g);
    var a := PlayAxis(g);
    WordsAlongAxis(g);
    EvaluationShape(g, a, cur);
    var r := Run(g, a, cur[0]);
    j := StemCollected(g, a, r, |r|, i);
  }

  /** Every word holds an unlocked square; `k` is its index. */
  lemma WordHasUnlockedSquare(g: Grid, j: nat) returns (k: nat)
    requires IsGrid(g) && j < |Words(g)|
    ensures k < |Words(g)[j].positions| && Unlocked(g, Words(g)[j].positions[k])
  {
    var cur := CurrentLetters(g);
    var a := PlayAxis(g);
    WordsAlongAxis(g);
    EvaluationShape(g, a, cur);
    if j == 0 {
      k := RunIndexOf(g, a, cur[0]);
    } else {
      var i := FurtherWord(g, j);
      var q := Words(g)[0].positions[i];
      assert AllLettered(g, Words(g)[0].positions);
      k := RunIndexOf(g, Perp(a), q);
    }
  }

  /** With one character per lettered square, a word's text has one character per square, in order. */
  lemma {:induction false} GetWordReads(g: Grid, ps: seq<Pos>)
    requires forall k | 0 <= k < |ps| :: |LetterAt(g, ps[k])| == 1
    ensures |GetWord(g, ps)| == |ps|
    ensures forall k | 0 <= k < |ps| :: GetWord(g, ps)[k] == LetterAt(g, ps[k])[0]
  {
    if ps != [] {
      var n := |ps| - 1;
      GetWordReads(g, ps[..n]);
      assert GetWord(g, ps) == GetWord(g, ps[..n]) + LetterAt(g, ps[n]);
      forall k | 0 <= k < |ps|
        ensures GetWord(g, ps)[k] == LetterAt(g, ps[k])[0]
      {
        if k < n {
          assert ps[..n][k] == ps[k];
        }
      }
    }
  }

  // ---------------------------------------------------------------------
  // Scoring.

  lemma {:induction false} LetterSumAtLeastRaw(g: Grid, values: LetterValues, ps: seq<Pos>)
    requires Scorable(g, values, ps)
    ensures LetterSum(g, values, ps) >= RawSum(g, values, ps)
  {
    if ps != [] {
      var q := ps[|ps| - 1];
      LetterSumAtLeastRaw(g, values, ps[..|ps| - 1]);
      var v, f := TileValue(g, values, q), LetterFactor(At(g, q));
      assert v * f >= v by {
        assert f == 1 || f == 2 || f == 3;
      }
    }
  }

  lemma {:induction false} WordMultiplierPositive(g: Grid, ps: seq<Pos>)
    requires forall k | 0 <= k < |ps| :: InBounds(g, ps[k])
    ensures WordMultiplier(g, ps) >= 1
  {
    if ps != [] {
      WordMultiplierPositive(g, ps[..|ps| - 1]);
    }
  }

  /** Premiums only ever raise a word's score above the sum of its raw letter values. */
  lemma ScoreAtLeastRaw(g: Grid, values: LetterValues, ps: seq<Pos>)
    requires Scorable(g, values, ps)
    ensures WordValue(g, values, ps) >= RawSum(g, values, ps)
  {
    LetterSumAtLeastRaw(g, values, ps);
    WordMultiplierPositive(g, ps);
    TimesAtLeastOne(LetterSum(g, values, ps), WordMultiplier(g, ps));
  }

  lemma TimesAtLeastOne(x: nat, y: nat)
    requires y >= 1
    ensures x * y >= x
  {
    assert x * y == x + x * (y - 1);
  }

  /** Every square of `ps` is locked. */
  predicate AllLocked(g: Grid, ps: seq<Pos>) {
    forall k | 0 <= k < |ps| :: InBounds(g, ps[k]) && At(g, ps[k]).locked
  }

  lemma {:induction false} LockedLetterSum(g: Grid, values: LetterValues, ps: seq<Pos>)
    requires Scorable(g, values, ps) && AllLocked(g, ps)
    ensures LetterSum(g, values, ps) == RawSum(g, values, ps) && WordMultiplier(g, ps) == 1
  {
    if ps != [] {
      LockedLetterSum(g, values, ps[..|ps| - 1]);
    }
  }

  /** A word of locked squares scores its raw letter values: premiums are spent once. */
  lemma LockedScoresRaw(g: Grid, values: LetterValues, ps: seq<Pos>)
    requires Scorable(g, values, ps) && AllLocked(g, ps)
    ensures WordValue(g, values, ps) == RawSum(g, values, ps)
  {
    LockedLetterSum(g, values, ps);
  }

  /** Each scored word is an extracted word with its score, and the total is the sum of those scores. */
  lemma PlayScores(g: Grid, values: LetterValues, j: nat)
    requires IsGrid(g) && Valued(values, g) && j < |Play(g, values).words|
    ensures j < |Words(g)| && Play(g, values).words[j].word == Words(g)[j]
    ensures Scorable(g, values, Words(g)[j].positions)
    ensures Play(g, values).words[j].score == WordValue(g, values, Words(g)[j].positions)
    ensures Play(g, values).total == SumScores(Play(g, values).words)
  {
    WordsScorable(g, values);
  }

  // ---------------------------------------------------------------------
  // The tile total.

  /** Two boards of the same shape whose squares hold the same letters. */
  predicate SameLetters(g: Grid, h: Grid) {
    |g| == |h| &&
    forall r | 0 <= r < |g| :: |g[r]| == |h[r]| && forall c | 0 <= c < |g[r]| :: g[r][c].letter == h[r][c].letter
  }

  lemma {:induction false} RowTotalSameLetters(values: LetterValues, row: seq<Square>, other: seq<Square>)
    requires RowValued(values, row) && |row| == |other|
    requires forall c | 0 <= c < |row| :: row[c].letter == other[c].letter
    ensures RowValued(values, other) && RowTotal(values, row) == RowTotal(values, other)
  {
    if row != [] {
      var n := |row| - 1;
      RowTotalSameLetters(values, row[..n], other[..n]);
    }
  }

  /** The tile total depends on the letters alone, not on locks or premiums. */
  lemma {:induction false} TileTotalIgnoresLocksAndPremiums(values: LetterValues, g: Grid, h: Grid)
    requires Valued(values, g) && SameLetters(g, h)
    ensures Valued(values, h) && GridTotal(values, g) == GridTotal(values, h)
  {
    if g != [] {
      var n := |g| - 1;
      assert SameLetters(g[..n], h[..n]);
      TileTotalIgnoresLocksAndPremiums(values, g[..n], h[..n]);
      RowTotalSameLetters(values, g[n], h[n]);
      forall r | 0 <= r < |h|
        ensures RowValued(values, h[r])
      {
        RowTotalSameLetters(values, g[r], h[r]);
      }
    }
  }
}
