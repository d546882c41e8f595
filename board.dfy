/**
 * The data model shared by the scoring engine and the game: square types,
 * squares, the rectangular grid, positions, and the two axes along which
 * words are read.
 */
module Board {

  /** The premium kind of a square, fixed when the board is built. */
  datatype SquareType = Plain | DoubleLetter | TripleLetter | DoubleWord | TripleWord

  /**
   * One square of the board. `letter` is the empty string until a tile is
   * placed there; `locked` becomes true once the turn that placed the tile
   * has been committed.
   */
  datatype Square = Square(kind: SquareType, letter: string, locked: bool)

  /** A board: a sequence of rows, each a sequence of squares. */
  type Grid = seq<seq<Square>>

  datatype Pos = Pos(row: nat, col: nat)

  /** A square has a letter when its letter string is non-empty (JavaScript truthiness). */
  predicate HasLetter(s: Square) {
    s.letter != ""
  }

  /** A square holding a tile of the turn in progress. */
  predicate IsCurrent(s: Square) {
    HasLetter(s) && !s.locked
  }

  function Width(g: Grid): nat {
    if |g| == 0 then 0 else |g[0]|
  }

  /** The board is rectangular: every row is as long as the first. */
  predicate IsGrid(g: Grid) {
    forall r | 0 <= r < |g| :: |g[r]| == Width(g)
  }

  predicate InBounds(g: Grid, p: Pos) {
    p.row < |g| && p.col < |g[p.row]|
  }

  function At(g: Grid, p: Pos): Square
    requires InBounds(g, p)
  {
    g[p.row][p.col]
  }

  /** Row-major order on positions. */
  predicate Before(p: Pos, q: Pos) {
    p.row < q.row || (p.row == q.row && p.col < q.col)
  }

  predicate StrictlyIncreasing(ps: seq<Pos>) {
    forall i, j | 0 <= i < j < |ps| :: Before(ps[i], ps[j])
  }

  /**
   * The direction of a line of squares. A position is addressed on an axis
   * by the index of its line (`Across`) and its index along that line (`Along`).
   */
  datatype Axis = Horizontal | Vertical

  function Perp(a: Axis): Axis {
    if a == Horizontal then Vertical else Horizontal
  }

  function Across(a: Axis, p: Pos): nat {
    if a == Horizontal then p.row else p.col
  }

  function Along(a: Axis, p: Pos): nat {
    if a == Horizontal then p.col else p.row
  }

  function Place(a: Axis, x: nat, i: nat): Pos {
    if a == Horizontal then Pos(x, i) else Pos(i, x)
  }

  /** The number of squares on one line along axis `a`. */
  function Extent(g: Grid, a: Axis): nat {
    if a == Horizontal then Width(g) else |g|
  }

  /**
   * The square with index `i` on line `x` along axis `a` is on the board and
   * has a letter.
   */
  predicate Lettered(g: Grid, a: Axis, x: nat, i: nat) {
    InBounds(g, Place(a, x, i)) && HasLetter(At(g, Place(a, x, i)))
  }

  /** On a rectangular board, a position's index along an axis is below that axis's extent. */
  lemma InBoundsAlong(g: Grid, a: Axis, p: Pos)
    requires IsGrid(g) && InBounds(g, p)
    ensures Along(a, p) < Extent(g, a) && Across(a, p) < Extent(g, Perp(a))
    ensures Place(a, Across(a, p), Along(a, p)) == p
  {
    assert |g[p.row]| == Width(g);
  }

  /** ASCII case mapping; other characters are left alone. */
  function UpperChar(c: char): char {
    if 'a' <= c <= 'z' then (c as int - 'a' as int + 'A' as int) as char else c
  }

  function LowerChar(c: char): char {
    if 'A' <= c <= 'Z' then (c as int - 'A' as int + 'a' as int) as char else c
  }

  function Upper(s: string): string {
    seq(|s|, i requires 0 <= i < |s| => UpperChar(s[i]))
  }

  function Lower(s: string): string {
    seq(|s|, i requires 0 <= i < |s| => LowerChar(s[i]))
  }
}
