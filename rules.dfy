/**
 * The rules of the scoring engine as functions: which squares belong to the
 * turn in progress, when they form a legal line, which words the line makes,
 * and what each word scores. The methods of module WordScore compute exactly
 * these functions; module Properties proves what they promise.
 */
module Rules {
  import opened Board

  /** Point value of each letter, keyed by the lower-case letter. */
  type LetterValues = map<string, nat>

  predicate RowValued(values: LetterValues, row: seq<Square>) {
    forall c | 0 <= c < |row| && HasLetter(row[c]) :: Lower(row[c].letter) in values
  }

  /** Every letter on the board has a point value. */
  predicate Valued(values: LetterValues, g: Grid) {
    forall r | 0 <= r < |g| :: RowValued(values, g[r])
  }

  lemma ValuedAt(values: LetterValues, g: Grid, p: Pos)
    requires Valued(values, g) && InBounds(g, p) && HasLetter(At(g, p))
    ensures Lower(At(g, p).letter) in values
  {
    assert RowValued(values, g[p.row]);
  }

  // ---------------------------------------------------------------------
  // Current letters: the lettered, unlocked squares, in row-major order.

  /** Current letters of row `r` in the columns before `c`. */
  function RowCurrent(g: Grid, r: nat, c: nat): (ps: seq<Pos>)
    requires r < |g| && c <= |g[r]|
    ensures forall k | 0 <= k < |ps| :: ps[k].row == r && ps[k].col < c && IsCurrent(g[r][ps[k].col])
    decreases c
  {
    if c == 0 then []
    else RowCurrent(g, r, c - 1) + (if IsCurrent(g[r][c - 1]) then [Pos(r, c - 1)] else [])
  }

  /** Current letters of the rows before `r`. */
  function CurrentBefore(g: Grid, r: nat): (ps: seq<Pos>)
    requires r <= |g|
    ensures forall k | 0 <= k < |ps| :: ps[k].row < r && InBounds(g, ps[k]) && IsCurrent(At(g, ps[k]))
  {
    if r == 0 then [] else CurrentBefore(g, r - 1) + RowCurrent(g, r - 1, |g[r - 1]|)
  }

  function CurrentLetters(g: Grid): (ps: seq<Pos>)
    ensures forall k | 0 <= k < |ps| :: InBounds(g, ps[k]) && IsCurrent(At(g, ps[k]))
  {
    CurrentBefore(g, |g|)
  }

  // ---------------------------------------------------------------------
  // The validator's tests.

  /** Every position lies on the line of the first one. */
  predicate AllOnSameLine(a: Axis, ps: seq<Pos>) {
    forall k | 0 <= k < |ps| :: Across(a, ps[k]) == Across(a, ps[0])
  }

  /** The square just before or just after `p` along axis `a` has a letter. */
  predicate HasNeighbor(g: Grid, a: Axis, p: Pos)
    requires IsGrid(g) && InBounds(g, p)
  {
    var x, i := Across(a, p), Along(a, p);
    (i > 0 && Lettered(g, a, x, i - 1)) || (i + 1 < Extent(g, a) && Lettered(g, a, x, i + 1))
  }

  /**
   * Every square on the line of the first position, from the first
   * position's index to the last position's index, has a letter.
   */
  predicate GapFree(g: Grid, a: Axis, ps: seq<Pos>)
    requires IsGrid(g) && forall k | 0 <= k < |ps| :: InBounds(g, ps[k])
  {
    |ps| < 2 ||
    forall i | Along(a, ps[0]) <= i <= Along(a, ps[|ps| - 1]) :: Lettered(g, a, Across(a, ps[0]), i)
  }

  /** The current letters `cur` form a legal play read along axis `a`. */
  predicate ValidLine(g: Grid, a: Axis, cur: seq<Pos>)
    requires IsGrid(g) && forall k | 0 <= k < |cur| :: InBounds(g, cur[k])
  {
    |cur| >= 1 && (|cur| == 1 ==> HasNeighbor(g, a, cur[0]))
    && AllOnSameLine(a, cur) && GapFree(g, a, cur)
  }

  // ---------------------------------------------------------------------
  // The extractor: maximal runs of lettered squares.

  /** Walking back from index `i` on line `x` while the previous square has a letter. */
  function RunStart(g: Grid, a: Axis, x: nat, i: nat): (s: nat)
    ensures s <= i
    decreases i
  {
    if i > 0 && Lettered(g, a, x, i - 1) then RunStart(g, a, x, i - 1) else i
  }

  /** Walking forward from index `i` on line `x` while the next square has a letter. */
  function RunEnd(g: Grid, a: Axis, x: nat, i: nat): (e: nat)
    requires IsGrid(g)
    ensures i <= e
    decreases Extent(g, a) - i
  {
    if i + 1 < Extent(g, a) && Lettered(g, a, x, i + 1) then RunEnd(g, a, x, i + 1) else i
  }

  /** The walk back passes only lettered squares and stops where the square before is not lettered. */
  lemma {:induction false} RunStartStops(g: Grid, a: Axis, x: nat, i: nat)
    ensures forall k | RunStart(g, a, x, i) <= k < i :: Lettered(g, a, x, k)
    ensures !(RunStart(g, a, x, i) > 0 && Lettered(g, a, x, RunStart(g, a, x, i) - 1))
    decreases i
  {
    if i > 0 && Lettered(g, a, x, i - 1) {
      RunStartStops(g, a, x, i - 1);
    }
  }

  /** The walk forward passes only lettered squares and stops where the square after is not lettered. */
  lemma {:induction false} RunEndStops(g: Grid, a: Axis, x: nat, i: nat)
    requires IsGrid(g)
    ensures forall k | i < k <= RunEnd(g, a, x, i) :: Lettered(g, a, x, k)
    ensures !Lettered(g, a, x, RunEnd(g, a, x, i) + 1)
    decreases Extent(g, a) - i
  {
    if i + 1 < Extent(g, a) && Lettered(g, a, x, i + 1) {
      RunEndStops(g, a, x, i + 1);
    } else if Lettered(g, a, x, i + 1) {
      InBoundsAlong(g, a, Place(a, x, i + 1));
    }
  }

  /** RunStart finds the one index `s` from which the squares up to `i` are lettered and the square before is not. */
  lemma {:induction false} RunStartUnique(g: Grid, a: Axis, x: nat, i: nat, s: nat)
    requires s <= i && forall k | s <= k < i :: Lettered(g, a, x, k)
    requires !(s > 0 && Lettered(g, a, x, s - 1))
    ensures RunStart(g, a, x, i) == s
    decreases i
  {
    if i > s {
      RunStartUnique(g, a, x, i - 1, s);
    }
  }

  /** RunEnd finds the one index `e` up to which the squares after `i` are lettered and the square after is not. */
  lemma {:induction false} RunEndUnique(g: Grid, a: Axis, x: nat, i: nat, e: nat)
    requires IsGrid(g)
    requires i <= e && forall k | i < k <= e :: Lettered(g, a, x, k)
    requires !(e + 1 < Extent(g, a) && Lettered(g, a, x, e + 1))
    ensures RunEnd(g, a, x, i) == e
    decreases e - i
  {
    if i < e {
      assert Lettered(g, a, x, i + 1);
      InBoundsAlong(g, a, Place(a, x, i + 1));
      RunEndUnique(g, a, x, i + 1, e);
    }
  }

  /** The `n` consecutive squares of line `x` along `a` starting at index `s`. */
  function Segment(a: Axis, x: nat, s: nat, n: nat): (r: seq<Pos>)
    ensures |r| == n && forall k | 0 <= k < n :: r[k] == Place(a, x, s + k)
  {
    seq(n, k requires 0 <= k < n => Place(a, x, s + k))
  }

  /** A segment one square longer is the segment followed by the square after it. */
  lemma SegmentGrows(a: Axis, x: nat, s: nat, n: nat)
    ensures Segment(a, x, s, n + 1) == Segment(a, x, s, n) + [Place(a, x, s + n)]
  {
    assert Segment(a, x, s, n + 1)[n] == Place(a, x, s + n);
  }

  /** One square of the run through `p`: on the board, and lettered unless it is `p`. */
  lemma RunSquare(g: Grid, a: Axis, p: Pos, s: nat, e: nat, i: nat)
    requires IsGrid(g) && InBounds(g, p)
    requires s <= Along(a, p) && s <= i <= e
    requires forall j | s <= j < Along(a, p) :: Lettered(g, a, Across(a, p), j)
    requires forall j | s < j <= e :: Lettered(g, a, Across(a, p), j)
    ensures InBounds(g, Place(a, Across(a, p), i))
    ensures HasLetter(At(g, Place(a, Across(a, p), i))) || Place(a, Across(a, p), i) == p
  {
    if i == Along(a, p) {
      InBoundsAlong(g, a, p);
    } else {
      assert Lettered(g, a, Across(a, p), i);
    }
  }

  /**
   * `r` is the run through `p` along axis `a`: a stretch of consecutive
   * squares of p's line, all on the board and lettered (except `p` itself
   * when it has no letter), containing `p` when `p` has a letter, and
   * maximal: neither the square before its first nor the square after its
   * last is a lettered square of the board.
   */
  predicate IsRunThrough(g: Grid, a: Axis, p: Pos, r: seq<Pos>)
    requires IsGrid(g) && InBounds(g, p)
  {
    |r| >= 1 &&
    (forall k | 0 <= k < |r| :: Across(a, r[k]) == Across(a, p) && Along(a, r[k]) == Along(a, r[0]) + k) &&
    (forall k | 0 <= k < |r| :: InBounds(g, r[k]) && (HasLetter(At(g, r[k])) || r[k] == p)) &&
    (HasLetter(At(g, p)) ==> Along(a, r[0]) <= Along(a, p) < Along(a, r[0]) + |r|) &&
    !(Along(a, r[0]) > 0 && Lettered(g, a, Across(a, p), Along(a, r[0]) - 1)) &&
    !Lettered(g, a, Across(a, p), Along(a, r[|r| - 1]) + 1)
  }

  /** The squares from `s` to `e` of p's line are on the board, lettered but for `p`, and contain `p` if it has a letter. */
  lemma RunSquares(g: Grid, a: Axis, p: Pos, s: nat, e: nat, r: seq<Pos>)
    requires IsGrid(g) && InBounds(g, p)
    requires s <= Along(a, p) && s <= e
    requires forall j | s <= j < Along(a, p) :: Lettered(g, a, Across(a, p), j)
    requires forall j | s < j <= e :: Lettered(g, a, Across(a, p), j)
    requires !Lettered(g, a, Across(a, p), e + 1)
    requires r == Segment(a, Across(a, p), s, e - s + 1)
    ensures forall k | 0 <= k < |r| :: InBounds(g, r[k]) && (HasLetter(At(g, r[k])) || r[k] == p)
    ensures HasLetter(At(g, p)) ==> Along(a, p) <= e
  {
    forall k | 0 <= k < |r|
      ensures InBounds(g, r[k]) && (HasLetter(At(g, r[k])) || r[k] == p)
    {
      RunSquare(g, a, p, s, e, s + k);
    }
    InBoundsAlong(g, a, p);
    if HasLetter(At(g, p)) && e < Along(a, p) {
      // the square after `e` would be a lettered square of the run
      assert false;
    }
  }

  /** The segment from `s` to `e` of line `x`, bounded by unlettered squares, is the run through `p` when it holds `p`'s squares. */
  lemma RunBounds(g: Grid, a: Axis, p: Pos, s: nat, e: nat, r: seq<Pos>)
    requires IsGrid(g) && InBounds(g, p) && s <= e
    requires forall k | 0 <= k < |r| :: InBounds(g, r[k]) && (HasLetter(At(g, r[k])) || r[k] == p)
    requires s <= Along(a, p) && (HasLetter(At(g, p)) ==> Along(a, p) <= e)
    requires !Lettered(g, a, Across(a, p), e + 1)
    requires !(s > 0 && Lettered(g, a, Across(a, p), s - 1))
    requires r == Segment(a, Across(a, p), s, e - s + 1)
    ensures IsRunThrough(g, a, p, r)
  {
    assert Along(a, r[0]) == s && Along(a, r[|r| - 1]) == e;
  }

  /**
   * The run through `p` along axis `a`: the squares of p's line from where
   * the walk back from `p` stops to where the walk forward from there stops.
   */
  function Run(g: Grid, a: Axis, p: Pos): (r: seq<Pos>)
    requires IsGrid(g)
    ensures |r| >= 1
  {
    var x := Across(a, p);
    var s := RunStart(g, a, x, Along(a, p));
    Segment(a, x, s, RunEnd(g, a, x, s) - s + 1)
  }

  /** Run computes the run through `p`. */
  lemma RunShape(g: Grid, a: Axis, p: Pos)
    requires IsGrid(g) && InBounds(g, p)
    ensures IsRunThrough(g, a, p, Run(g, a, p))
  {
    var x := Across(a, p);
    var s := RunStart(g, a, x, Along(a, p));
    var e := RunEnd(g, a, x, s);
    RunStartStops(g, a, x, Along(a, p));
    RunEndStops(g, a, x, s);
    RunSquares(g, a, p, s, e, Run(g, a, p));
    RunBounds(g, a, p, s, e, Run(g, a, p));
  }

  // ---------------------------------------------------------------------
  // Words.

  /** A word: its text and the positions of its squares, in order. */
  datatype Word = Word(text: string, positions: seq<Pos>)

  /** The letter on square `p`; positions off the board read as empty. */
  function LetterAt(g: Grid, p: Pos): string {
    if InBounds(g, p) then At(g, p).letter else ""
  }

  /** The letters of the squares at `ps`, joined in order. */
  function GetWord(g: Grid, ps: seq<Pos>): string {
    if ps == [] then "" else GetWord(g, ps[..|ps| - 1]) + LetterAt(g, ps[|ps| - 1])
  }

  /** The square at `p` is on the board and not locked. */
  predicate Unlocked(g: Grid, p: Pos) {
    InBounds(g, p) && !At(g, p).locked
  }

  /** The perpendicular word through `q`, when that run is longer than one square. */
  function Stem(g: Grid, a: Axis, q: Pos): seq<Word>
    requires IsGrid(g)
  {
    var v := Run(g, Perp(a), q);
    if |v| > 1 then [Word(GetWord(g, v), v)] else []
  }

  /**
   * The word on `ps`, followed by the perpendicular words through the
   * unlocked squares among the first `n` of `ps`, in order.
   */
  function Collected(g: Grid, a: Axis, ps: seq<Pos>, n: nat): (ws: seq<Word>)
    requires IsGrid(g) && n <= |ps|
    ensures |ws| >= 1 && ws[0] == Word(GetWord(g, ps), ps)
  {
    if n == 0 then [Word(GetWord(g, ps), ps)]
    else Collected(g, a, ps, n - 1) + (if Unlocked(g, ps[n - 1]) then Stem(g, a, ps[n - 1]) else [])
  }

  /** The words of the play read along axis `a`, or none when it is not legal that way. */
  function Evaluation(g: Grid, a: Axis, cur: seq<Pos>): seq<Word>
    requires IsGrid(g) && forall k | 0 <= k < |cur| :: InBounds(g, cur[k])
  {
    if |cur| == 1 && !HasNeighbor(g, a, cur[0]) then []
    else if |cur| < 1 || !AllOnSameLine(a, cur) then []
    else if !GapFree(g, a, cur) then []
    else var r := Run(g, a, cur[0]); Collected(g, a, r, |r|)
  }

  /** The words of the play: read as a row first, as a column only when that gives none. */
  function Words(g: Grid): seq<Word>
    requires IsGrid(g)
  {
    var cur := CurrentLetters(g);
    var h := Evaluation(g, Horizontal, cur);
    if h != [] then h else Evaluation(g, Vertical, cur)
  }

  // ---------------------------------------------------------------------
  // The scorer.

  /** Every square of `ps` is on the board, has a letter, and the letter has a value. */
  predicate Scorable(g: Grid, values: LetterValues, ps: seq<Pos>) {
    forall k | 0 <= k < |ps| ::
      InBounds(g, ps[k]) && HasLetter(At(g, ps[k])) && Lower(At(g, ps[k]).letter) in values
  }

  function TileValue(g: Grid, values: LetterValues, p: Pos): nat
    requires InBounds(g, p) && Lower(At(g, p).letter) in values
  {
    values[Lower(At(g, p).letter)]
  }

  /** A letter premium counts only on an unlocked square. */
  function LetterFactor(s: Square): nat {
    if s.locked then 1
    else match s.kind
      case DoubleLetter => 2
      case TripleLetter => 3
      case _ => 1
  }

  /** A word premium counts only on an unlocked square. */
  function WordFactor(s: Square): nat {
    if s.locked then 1
    else match s.kind
      case DoubleWord => 2
      case TripleWord => 3
      case _ => 1
  }

  /** Sum of the raw letter values of `ps`. */
  function RawSum(g: Grid, values: LetterValues, ps: seq<Pos>): nat
    requires Scorable(g, values, ps)
  {
    if ps == [] then 0
    else RawSum(g, values, ps[..|ps| - 1]) + TileValue(g, values, ps[|ps| - 1])
  }

  /** Sum of the letter values of `ps`, each times its square's letter premium. */
  function LetterSum(g: Grid, values: LetterValues, ps: seq<Pos>): nat
    requires Scorable(g, values, ps)
  {
    if ps == [] then 0
    else
      var q := ps[|ps| - 1];
      LetterSum(g, values, ps[..|ps| - 1]) + TileValue(g, values, q) * LetterFactor(At(g, q))
  }

  /** Product of the word premiums of the squares of `ps`. */
  function WordMultiplier(g: Grid, ps: seq<Pos>): nat
    requires forall k | 0 <= k < |ps| :: InBounds(g, ps[k])
  {
    if ps == [] then 1
    else WordMultiplier(g, ps[..|ps| - 1]) * WordFactor(At(g, ps[|ps| - 1]))
  }

  /** Extending a prefix of `ps` by its next square adds that square's premium value to the letter sum and its word premium to the multiplier. */
  lemma ScoreStep(g: Grid, values: LetterValues, ps: seq<Pos>, k: nat)
    requires Scorable(g, values, ps) && k < |ps|
    ensures Scorable(g, values, ps[..k]) && Scorable(g, values, ps[..k + 1])
    ensures LetterSum(g, values, ps[..k + 1]) ==
      LetterSum(g, values, ps[..k]) + TileValue(g, values, ps[k]) * LetterFactor(At(g, ps[k]))
    ensures WordMultiplier(g, ps[..k + 1]) == WordMultiplier(g, ps[..k]) * WordFactor(At(g, ps[k]))
  {
    assert ps[..k + 1][..k] == ps[..k];
  }

  function WordValue(g: Grid, values: LetterValues, ps: seq<Pos>): nat
    requires Scorable(g, values, ps)
  {
    LetterSum(g, values, ps) * WordMultiplier(g, ps)
  }

  datatype ScoredWord = ScoredWord(word: Word, score: nat)

  /** The outcome of scoring a board: its words with their scores, and their sum. */
  datatype PlayResult = PlayResult(words: seq<ScoredWord>, total: nat)

  function SumScores(ws: seq<ScoredWord>): nat {
    if ws == [] then 0 else SumScores(ws[..|ws| - 1]) + ws[|ws| - 1].score
  }

  function ScoreAll(g: Grid, values: LetterValues, ws: seq<Word>): seq<ScoredWord>
    requires forall j | 0 <= j < |ws| :: Scorable(g, values, ws[j].positions)
  {
    seq(|ws|, j requires 0 <= j < |ws| => ScoredWord(ws[j], WordValue(g, values, ws[j].positions)))
  }

  /** The scored play on board `g`. */
  function Play(g: Grid, values: LetterValues): PlayResult
    requires IsGrid(g) && Valued(values, g)
  {
    WordsScorable(g, values);
    var scored := ScoreAll(g, values, Words(g));
    PlayResult(scored, SumScores(scored))
  }

  // ---------------------------------------------------------------------
  // The shape of the extracted words.

  /** Every square of `ps` is on the board and has a letter. */
  predicate AllLettered(g: Grid, ps: seq<Pos>) {
    forall k | 0 <= k < |ps| :: InBounds(g, ps[k]) && HasLetter(At(g, ps[k]))
  }

  /**
   * `w` is the word stemming from the unlocked square `q`: the run
   * perpendicular to `a` through `q`, longer than one square, read in order.
   */
  predicate StemThrough(g: Grid, a: Axis, w: Word, q: Pos)
    requires IsGrid(g)
  {
    Unlocked(g, q) && w.positions == Run(g, Perp(a), q) &&
    |w.positions| >= 2 && w.text == GetWord(g, w.positions)
  }

  /** The words collected from the first `n` squares of `ps` are those from the first `n - 1`, then the stem through square `n - 1`. */
  lemma CollectedNext(g: Grid, a: Axis, ps: seq<Pos>, n: nat)
    requires IsGrid(g) && 0 < n <= |ps|
    ensures Collected(g, a, ps, n) ==
      Collected(g, a, ps, n - 1) + (if Unlocked(g, ps[n - 1]) then Stem(g, a, ps[n - 1]) else [])
  {
  }

  /** A collected word beyond those from the first `n - 1` squares is the stem through square `n - 1`. */
  lemma CollectedLast(g: Grid, a: Axis, ps: seq<Pos>, n: nat, j: nat)
    requires IsGrid(g) && 0 < n <= |ps|
    requires |Collected(g, a, ps, n - 1)| <= j < |Collected(g, a, ps, n)|
    ensures StemThrough(g, a, Collected(g, a, ps, n)[j], ps[n - 1])
  {
    CollectedNext(g, a, ps, n);
  }

  /** A word collected from the first `n - 1` squares keeps its place when square `n - 1` is visited. */
  lemma CollectedEarlier(g: Grid, a: Axis, ps: seq<Pos>, n: nat, j: nat)
    requires IsGrid(g) && 0 < n <= |ps| && j < |Collected(g, a, ps, n - 1)|
    ensures Collected(g, a, ps, n)[j] == Collected(g, a, ps, n - 1)[j]
  {
    CollectedNext(g, a, ps, n);
  }

  /**
   * After the word on `ps`, each collected word stems from one of the first
   * `n` squares of `ps`; `i` is the index of that square.
   */
  lemma {:induction false} StemSource(g: Grid, a: Axis, ps: seq<Pos>, n: nat, j: nat) returns (i: nat)
    requires IsGrid(g) && n <= |ps| && 1 <= j < |Collected(g, a, ps, n)|
    ensures i < n && StemThrough(g, a, Collected(g, a, ps, n)[j], ps[i])
  {
    if n == 0 {
      assert false;
    } else if j < |Collected(g, a, ps, n - 1)| {
      CollectedEarlier(g, a, ps, n, j);
      i := StemSource(g, a, ps, n - 1, j);
    } else {
      CollectedLast(g, a, ps, n, j);
      i := n - 1;
    }
  }

  /**
   * Conversely, the perpendicular run through each unlocked square among
   * the first `n` of `ps` is collected when it has two or more squares; `j`
   * is its index among the collected words.
   */
  lemma {:induction false} StemCollected(g: Grid, a: Axis, ps: seq<Pos>, n: nat, i: nat) returns (j: nat)
    requires IsGrid(g) && n <= |ps| && i < n && Unlocked(g, ps[i]) && |Run(g, Perp(a), ps[i])| >= 2
    ensures 1 <= j < |Collected(g, a, ps, n)| && Collected(g, a, ps, n)[j].positions == Run(g, Perp(a), ps[i])
  {
    CollectedNext(g, a, ps, n);
    if i == n - 1 {
      j := |Collected(g, a, ps, n - 1)|;
    } else {
      j := StemCollected(g, a, ps, n - 1, i);
      CollectedEarlier(g, a, ps, n, j);
    }
  }

  /** The run through a lettered square is lettered throughout. */
  lemma RunLettered(g: Grid, a: Axis, p: Pos)
    requires IsGrid(g) && InBounds(g, p) && HasLetter(At(g, p))
    ensures AllLettered(g, Run(g, a, p))
  {
    RunShape(g, a, p);
  }

  /** Every square of every word collected from the lettered run `ps` has a letter. */
  lemma {:induction false} CollectedLettered(g: Grid, a: Axis, ps: seq<Pos>, n: nat)
    requires IsGrid(g) && n <= |ps| && AllLettered(g, ps)
    ensures forall j | 0 <= j < |Collected(g, a, ps, n)| :: AllLettered(g, Collected(g, a, ps, n)[j].positions)
  {
    if n > 0 {
      CollectedLettered(g, a, ps, n - 1);
      forall j | 0 <= j < |Collected(g, a, ps, n)|
        ensures AllLettered(g, Collected(g, a, ps, n)[j].positions)
      {
        if j < |Collected(g, a, ps, n - 1)| {
          CollectedEarlier(g, a, ps, n, j);
        } else {
          CollectedLast(g, a, ps, n, j);
          RunLettered(g, Perp(a), ps[n - 1]);
        }
      }
    }
  }

  /**
   * Reading along `a` gives words exactly when the current letters form a
   * valid line that way; the words are then those collected from the run
   * through the first current letter.
   */
  lemma EvaluationShape(g: Grid, a: Axis, cur: seq<Pos>)
    requires IsGrid(g) && forall k | 0 <= k < |cur| :: InBounds(g, cur[k]) && IsCurrent(At(g, cur[k]))
    ensures Evaluation(g, a, cur) != [] <==> ValidLine(g, a, cur)
    ensures Evaluation(g, a, cur) != [] ==>
      var r := Run(g, a, cur[0]);
      AllLettered(g, r) && Evaluation(g, a, cur) == Collected(g, a, r, |r|)
  {
    if |cur| >= 1 {
      RunShape(g, a, cur[0]);
    }
  }

  lemma WordsScorable(g: Grid, values: LetterValues)
    requires IsGrid(g) && Valued(values, g)
    ensures forall j | 0 <= j < |Words(g)| :: Scorable(g, values, Words(g)[j].positions)
  {
    var cur := CurrentLetters(g);
    EvaluationShape(g, Horizontal, cur);
    EvaluationShape(g, Vertical, cur);
    var ws := Words(g);
    if ws != [] {
      var a := if Evaluation(g, Horizontal, cur) != [] then Horizontal else Vertical;
      var r := Run(g, a, cur[0]);
      CollectedLettered(g, a, r, |r|);
      forall j, k | 0 <= j < |ws| && 0 <= k < |ws[j].positions|
        ensures Lower(At(g, ws[j].positions[k]).letter) in values
      {
        assert AllLettered(g, ws[j].positions);
        ValuedAt(values, g, ws[j].positions[k]);
      }
    }
  }
}
