/**
 * The grid transitions behind the game's handlers in src/index.js: building
 * the initial board from a layout, placing a letter on a square, and
 * committing a turn by locking its tiles. Each returns a new grid, as the
 * source copies the board before changing it.
 */
module Game {
  import opened Board
  import opened Rules
  import opened WordScore
  import opened Properties

  /** A premium square of the layout, listed as a (column, row) pair. */
  datatype Coord = Coord(col: nat, row: nat)

  /** The board layout: its dimensions and the premium squares of each kind. */
  datatype Layout = Layout(rows: nat, columns: nat, w3x: seq<Coord>, w2x: seq<Coord>, l3x: seq<Coord>, l2x: seq<Coord>)

  predicate OnBoard(layout: Layout, cs: seq<Coord>) {
    forall k | 0 <= k < |cs| :: cs[k].row < layout.rows && cs[k].col < layout.columns
  }

  /** Every premium square of the layout lies inside its dimensions. */
  predicate WellFormed(layout: Layout) {
    OnBoard(layout, layout.w3x) && OnBoard(layout, layout.w2x) &&
    OnBoard(layout, layout.l3x) && OnBoard(layout, layout.l2x)
  }

  /**
   * The premium of the square at `row`, `col`: the lists are applied in the
   * order w3x, w2x, l3x, l2x, so a square in several lists takes the kind of
   * the last of them.
   */
  function PremiumAt(layout: Layout, row: nat, col: nat): SquareType {
    var c := Coord(col, row);
    if c in layout.l2x then DoubleLetter
    else if c in layout.l3x then TripleLetter
    else if c in layout.w2x then DoubleWord
    else if c in layout.w3x then TripleWord
    else Plain
  }

  /** A fresh square: no letter, unlocked. */
  function Blank(kind: SquareType): Square {
    Square(kind, "", false)
  }

  /** `g` is the board built from `layout`: its dimensions, blank squares, and the layout's premiums. */
  predicate IsInitial(layout: Layout, g: Grid) {
    |g| == layout.rows &&
    (forall r | 0 <= r < |g| :: |g[r]| == layout.columns) &&
    forall r, c | 0 <= r < |g| && 0 <= c < |g[r]| :: g[r][c] == Blank(PremiumAt(layout, r, c))
  }

  /** Overwrites the square of every coordinate of `cs` with a blank square of kind `kind`. */
  method MarkPremiums(squares: Grid, cs: seq<Coord>, kind: SquareType) returns (marked: Grid)
    requires forall k | 0 <= k < |cs| :: cs[k].row < |squares| && cs[k].col < |squares[cs[k].row]|
    ensures |marked| == |squares| && forall r | 0 <= r < |squares| :: |marked[r]| == |squares[r]|
    ensures forall r, c | 0 <= r < |squares| && 0 <= c < |squares[r]| ::
      marked[r][c] == if Coord(c, r) in cs then Blank(kind) else squares[r][c]
  {
    marked := squares;
    for k := 0 to |cs|
      invariant |marked| == |squares| && forall r | 0 <= r < |squares| :: |marked[r]| == |squares[r]|
      invariant forall r, c | 0 <= r < |squares| && 0 <= c < |squares[r]| ::
        marked[r][c] == if Coord(c, r) in cs[..k] then Blank(kind) else squares[r][c]
    {
      var col, row := cs[k].col, cs[k].row;
      marked := marked[row := marked[row][col := Blank(kind)]];
      assert cs[..k + 1] == cs[..k] + [cs[k]];
    }
    assert cs[..|cs|] == cs;
  }

  /** Builds the board: `rows` rows of `columns` blank plain squares, then the premium squares list by list. */
  method InitialSquares(layout: Layout) returns (squares: Grid)
    requires WellFormed(layout)
    ensures IsInitial(layout, squares)
  {
    var defaultSquare := Blank(Plain);
    squares := [];
    for row := 0 to layout.rows
      invariant |squares| == row
      invariant forall r | 0 <= r < row :: |squares[r]| == layout.columns
      invariant forall r, c | 0 <= r < row && 0 <= c < |squares[r]| :: squares[r][c] == defaultSquare
    {
      var line := [];
      for col := 0 to layout.columns
        invariant |line| == col && forall c | 0 <= c < col :: line[c] == defaultSquare
      {
        line := line + [defaultSquare];
      }
      squares := squares + [line];
    }
    squares := MarkPremiums(squares, layout.w3x, TripleWord);
    squares := MarkPremiums(squares, layout.w2x, DoubleWord);
    squares := MarkPremiums(squares, layout.l3x, TripleLetter);
    squares := MarkPremiums(squares, layout.l2x, DoubleLetter);
  }

  /** A square is a premium square exactly when the layout lists its coordinate. */
  lemma PremiumExactlyWhereListed(layout: Layout, row: nat, col: nat)
    ensures PremiumAt(layout, row, col) != Plain <==>
      var c := Coord(col, row);
      c in layout.w3x || c in layout.w2x || c in layout.l3x || c in layout.l2x
  {
  }

  /** The initial board is rectangular, and it has no tiles, so it has no play and no tile value. */
  lemma InitialBoardIsEmpty(layout: Layout, g: Grid, values: LetterValues)
    requires IsInitial(layout, g)
    ensures IsGrid(g) && Valued(values, g) && CurrentLetters(g) == []
    ensures Play(g, values) == PlayResult([], 0) && GridTotal(values, g) == 0
  {
    forall r | 0 <= r < |g|
      ensures RowValued(values, g[r]) && RowTotal(values, g[r]) == 0
    {
      BlankRowTotal(values, g[r]);
    }
    BlankGridTotal(values, g);
    NoCurrentSquares(g);
    NoTilesNoScore(g, values);
  }

  /** A row without letters has no tile value. */
  lemma {:induction false} BlankRowTotal(values: LetterValues, row: seq<Square>)
    requires forall c | 0 <= c < |row| :: row[c].letter == ""
    ensures RowValued(values, row) && RowTotal(values, row) == 0
  {
    if row != [] {
      BlankRowTotal(values, row[..|row| - 1]);
    }
  }

  lemma {:induction false} BlankGridTotal(values: LetterValues, g: Grid)
    requires forall r | 0 <= r < |g| :: RowValued(values, g[r]) && RowTotal(values, g[r]) == 0
    ensures Valued(values, g) && GridTotal(values, g) == 0
  {
    if g != [] {
      BlankGridTotal(values, g[..|g| - 1]);
    }
  }

  // ---------------------------------------------------------------------
  // Placing a letter.

  /**
   * The board after typing `value` into the square at `row`, `col`: a locked
   * square refuses the change; otherwise that square alone takes the
   * upper-cased value as its letter and keeps its kind and lock state.
   */
  function PlaceLetter(g: Grid, row: nat, col: nat, value: string): (h: Grid)
    requires InBounds(g, Pos(row, col))
    ensures g[row][col].locked ==> h == g
    ensures |h| == |g| && forall r | 0 <= r < |g| :: |h[r]| == |g[r]|
    ensures forall r, c | 0 <= r < |g| && 0 <= c < |g[r]| && (r != row || c != col) :: h[r][c] == g[r][c]
    ensures !g[row][col].locked ==> h[row][col] == Square(g[row][col].kind, Upper(value), false)
  {
    if g[row][col].locked then g
    else g[row := g[row][col := g[row][col].(letter := Upper(value))]]
  }

  /**
   * Placing a letter on an unlocked square makes it a current letter exactly
   * when the value is non-empty, and leaves every other square's standing
   * unchanged; the board stays rectangular.
   */
  lemma PlaceLetterCurrent(g: Grid, row: nat, col: nat, value: string, p: Pos)
    requires IsGrid(g) && InBounds(g, Pos(row, col)) && !g[row][col].locked
    ensures IsGrid(PlaceLetter(g, row, col, value))
    ensures p in CurrentLetters(PlaceLetter(g, row, col, value)) <==>
      if p == Pos(row, col) then value != "" else p in CurrentLetters(g)
  {
    var h := PlaceLetter(g, row, col, value);
    CurrentLettersExactly(g, p);
    CurrentLettersExactly(h, p);
    assert |Upper(value)| == |value|;
  }

  // ---------------------------------------------------------------------
  // Committing a turn.

  /** A lettered, unlocked square becomes locked; any other square is kept. */
  function Commit(s: Square): (t: Square)
    ensures t.kind == s.kind && t.letter == s.letter
    ensures t.locked == (s.locked || HasLetter(s))
  {
    if !s.locked && HasLetter(s) then s.(locked := true) else s
  }

  function CommittedRow(row: seq<Square>): seq<Square> {
    seq(|row|, c requires 0 <= c < |row| => Commit(row[c]))
  }

  /** The board with every square committed. */
  function Committed(g: Grid): Grid {
    seq(|g|, r requires 0 <= r < |g| => CommittedRow(g[r]))
  }

  /** Locks every lettered square that is not yet locked. */
  method LockUsedSquares(squares: Grid) returns (update: Grid)
    ensures update == Committed(squares)
  {
    update := squares;
    for row := 0 to |update|
      invariant |update| == |squares|
      invariant forall r | 0 <= r < |squares| :: update[r] == if r < row then CommittedRow(squares[r]) else squares[r]
    {
      for col := 0 to |update[row]|
        invariant |update| == |squares| && |update[row]| == |squares[row]|
        invariant forall r | 0 <= r < |squares| && r != row ::
          update[r] == if r < row then CommittedRow(squares[r]) else squares[r]
        invariant forall c | 0 <= c < |squares[row]| ::
          update[row][c] == if c < col then Commit(squares[row][c]) else squares[row][c]
      {
        var current := update[row][col];
        if !current.locked && HasLetter(current) {
          update := update[row := update[row][col := current.(locked := true)]];
        }
      }
    }
  }

  /** A commit keeps the board's dimensions, row by row. */
  lemma CommittedShape(g: Grid)
    ensures |Committed(g)| == |g| && forall r | 0 <= r < |g| :: |Committed(g)[r]| == |g[r]|
  {
  }

  /**
   * After a commit every lettered square is locked, squares without a letter
   * keep their lock state, and kinds, letters and dimensions are unchanged.
   */
  lemma CommittedSquares(g: Grid, r: nat, c: nat)
    requires r < |g| && c < |g[r]|
    ensures |Committed(g)| == |g| && |Committed(g)[r]| == |g[r]|
    ensures Committed(g)[r][c].kind == g[r][c].kind && Committed(g)[r][c].letter == g[r][c].letter
    ensures HasLetter(g[r][c]) ==> Committed(g)[r][c].locked
    ensures !HasLetter(g[r][c]) ==> Committed(g)[r][c].locked == g[r][c].locked
  {
    assert Committed(g)[r][c] == Commit(g[r][c]);
  }

  /** Committing twice is committing once. */
  lemma CommitIdempotent(g: Grid)
    ensures Committed(Committed(g)) == Committed(g)
  {
    var h := Committed(g);
    forall r | 0 <= r < |g|
      ensures Committed(h)[r] == h[r]
    {
      assert CommittedRow(h[r]) == h[r];
    }
  }

  /** A committed board is rectangular when the board was, and has no current letters, so it has no play. */
  lemma CommitEndsPlay(g: Grid, values: LetterValues)
    requires IsGrid(g) && Valued(values, g)
    ensures IsGrid(Committed(g)) && Valued(values, Committed(g)) && CurrentLetters(Committed(g)) == []
    ensures Play(Committed(g), values) == PlayResult([], 0)
  {
    var h := Committed(g);
    CommitSameLetters(g);
    TileTotalIgnoresLocksAndPremiums(values, g, h);
    forall i, k | 0 <= i < |h| && 0 <= k < |h[i]|
      ensures !IsCurrent(h[i][k])
    {
      CommittedSquares(g, i, k);
    }
    NoCurrentSquares(h);
    NoTilesNoScore(h, values);
  }

  lemma CommitSameLetters(g: Grid)
    ensures SameLetters(g, Committed(g))
  {
    forall r, c | 0 <= r < |g| && 0 <= c < |g[r]|
      ensures Committed(g)[r][c].letter == g[r][c].letter
    {
      CommittedSquares(g, r, c);
    }
  }

  /** Committing does not change the tile total. */
  lemma CommitKeepsTileTotal(g: Grid, values: LetterValues)
    requires Valued(values, g)
    ensures Valued(values, Committed(g)) && GridTotal(values, Committed(g)) == GridTotal(values, g)
  {
    CommitSameLetters(g);
    TileTotalIgnoresLocksAndPremiums(values, g, Committed(g));
  }

  /** On a committed board premiums are spent: every word scores its raw letter values. */
  lemma CommittedScoresRaw(g: Grid, values: LetterValues, ps: seq<Pos>)
    requires Scorable(Committed(g), values, ps)
    ensures WordValue(Committed(g), values, ps) == RawSum(Committed(g), values, ps)
  {
    forall k | 0 <= k < |ps|
      ensures At(Committed(g), ps[k]).locked
    {
      CommittedSquares(g, ps[k].row, ps[k].col);
    }
    LockedScoresRaw(Committed(g), values, ps);
  }
}
