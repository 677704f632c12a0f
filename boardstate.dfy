/**
 * The board as a value, and the board's read-only algorithms specified over it
 * (board/Board.java: nextPosition, getContinuousWord, hasAdjacentLetter and
 * isValidMove). Class Board in module Boards runs the same algorithms with
 * loops over its live squares and is proved equal to these functions.
 */
module BoardStates {
  import opened Wrappers
  import opened Letters
  import opened Geometry
  import opened Squares
  import opened PlayedWords
  import opened Moves

  /** A snapshot of a board: its size and a view of every square. */
  datatype BoardState = BoardState(width: nat, height: nat, squares: map<Position, ImmutableSquare>)

  /** Both factories build boards whose squares are exactly the width × height grid. */
  ghost predicate Grid(b: BoardState)
  {
    forall p: Position :: p in b.squares <==> p.row < b.height && p.col < b.width
  }

  /** How far a line of orientation `o` reaches on the board. */
  function Extent(b: BoardState, o: Orientation): nat
  {
    if o == Horizontal then b.width else b.height
  }

  predicate HasLetterAt(b: BoardState, p: Position)
  {
    p in b.squares && b.squares[p].letterTile.Some?
  }

  /**
   * `nextPosition`: the neighbour in direction `d` when it is on the board,
   * null when it is not, and the exception `adjacent` throws at the top and
   * left edges.
   */
  function NextPosition(b: BoardState, p: Position, d: Direction): (r: Result<Option<Position>>)
    ensures r.Ok? <==> Adjacent(d, p).Ok?
    ensures r.Ok? && r.value.Some? ==> r.value == Adjacent(d, p).value && r.value.value in b.squares
    ensures r.Ok? && r.value.None? ==> Adjacent(d, p).value.value !in b.squares
  {
    var q :- Adjacent(d, p);
    if q.Some? && q.value in b.squares then Ok(q) else Ok(None)
  }

  /** The first loop of getContinuousWord: walk back while the previous square has a letter. */
  function RunStart(b: BoardState, p: Position, o: Orientation): (r: Result<Position>)
    requires HasLetterAt(b, p)
    ensures r.Ok? ==> HasLetterAt(b, r.value) && SameLine(r.value, p, o) && Along(r.value, o) <= Along(p, o)
    decreases Along(p, o)
  {
    AdjacentBackwards(p, o);
    var n :- NextPosition(b, p, Backwards(o));
    if n.Some? && HasLetterAt(b, n.value) then RunStart(b, n.value, o) else Ok(p)
  }

  /**
   * The second loop of getContinuousWord: the positions from `q` forward while
   * squares carry letters. Stepping right or down never throws.
   */
  function RunFrom(b: BoardState, q: Position, o: Orientation): (run: seq<Position>)
    requires Grid(b) && q in b.squares
    decreases Extent(b, o) - Along(q, o)
  {
    var n := Cell(q, o, Along(q, o) + 1);
    if HasLetterAt(b, n) then [q] + RunFrom(b, n, o) else [q]
  }

  predicate AllLettered(b: BoardState, run: seq<Position>)
  {
    forall i :: 0 <= i < |run| ==> HasLetterAt(b, run[i])
  }

  /** What a letter contributes: its points times its square's letter multiplier. */
  function LetterValue(b: BoardState, p: Position): int
    requires HasLetterAt(b, p)
  {
    b.squares[p].letterTile.value.points * b.squares[p].letterMultiplier
  }

  /** The sum of the letter values along a run. */
  function LetterSum(b: BoardState, run: seq<Position>): int
    requires AllLettered(b, run)
  {
    if run == [] then 0 else LetterValue(b, run[0]) + LetterSum(b, run[1..])
  }

  /** The product of the word multipliers along a run. */
  function WordProduct(b: BoardState, run: seq<Position>): int
    requires AllLettered(b, run)
  {
    if run == [] then 1 else b.squares[run[0]].wordMultiplier * WordProduct(b, run[1..])
  }

  /** The letters along a run, in order. */
  function LettersOf(b: BoardState, run: seq<Position>): (ls: seq<Letter>)
    requires AllLettered(b, run)
    ensures |ls| == |run|
  {
    seq(|run|, i requires 0 <= i < |run| && AllLettered(b, run) => b.squares[run[i]].letterTile.value.letter)
  }

  /**
   * The word a run forms: none for a single letter, otherwise its letters and
   * the letter sum times the word-multiplier product.
   */
  function WordOf(b: BoardState, run: seq<Position>): Option<PlayedWord>
    requires AllLettered(b, run)
  {
    if |run| > 1 then Some(PlayedWord(LettersOf(b, run), LetterSum(b, run) * WordProduct(b, run))) else None
  }

  /**
   * `getContinuousWord(p, LEFT, RIGHT)` for a horizontal and `(p, UP, DOWN)`
   * for a vertical line: a position off the board dereferences null, an empty
   * square throws, otherwise the word through `p` (or null).
   */
  function ContinuousWord(b: BoardState, p: Position, o: Orientation): (r: Result<Option<PlayedWord>>)
    requires Grid(b)
    ensures p !in b.squares ==> r == Err(NullPointer)
    ensures p in b.squares && !HasLetterAt(b, p) ==> r == Err(IllegalArgument("No tile exists at given position."))
  {
    if p !in b.squares then Err(NullPointer)
    else if !HasLetterAt(b, p) then Err(IllegalArgument("No tile exists at given position."))
    else
      var start :- RunStart(b, p, o);
      RunFromLettered(b, start, o);
      Ok(WordOf(b, RunFrom(b, start, o)))
  }

  lemma {:induction false} RunFromLettered(b: BoardState, q: Position, o: Orientation)
    requires Grid(b) && HasLetterAt(b, q)
    ensures AllLettered(b, RunFrom(b, q, o))
    decreases Extent(b, o) - Along(q, o)
  {
    var n := Cell(q, o, Along(q, o) + 1);
    if HasLetterAt(b, n) {
      RunFromLettered(b, n, o);
    }
  }

  /** The square after `q` along orientation `o`, if it is on the board. */
  function Successor(b: BoardState, q: Position, o: Orientation): (n: Option<Position>)
    ensures n.Some? ==> n.value in b.squares && SameLine(n.value, q, o) && Along(n.value, o) == Along(q, o) + 1
  {
    var n := Cell(q, o, Along(q, o) + 1);
    if n in b.squares then Some(n) else None
  }

  /** One forward step of getContinuousWord: the neighbour after `q`, and how the run from `q` continues. */
  lemma RunFromStep(b: BoardState, q: Position, o: Orientation)
    requires Grid(b) && q in b.squares
    ensures var n := Cell(q, o, Along(q, o) + 1);
      && NextPosition(b, q, Forwards(o)) == Ok(Successor(b, q, o))
      && RunFrom(b, q, o) == if HasLetterAt(b, n) then [q] + RunFrom(b, n, o) else [q]
  {
    AdjacentForwards(q, o);
  }

  /** The next square after `q` exists and carries a letter. */
  predicate LetterFollows(b: BoardState, q: Position, o: Orientation)
  {
    var n := Successor(b, q, o);
    n.Some? && HasLetterAt(b, n.value)
  }

  /** The letters of the run after `q` (not including `q`). */
  function LettersAfter(b: BoardState, q: Position, o: Orientation): seq<Letter>
    requires Grid(b)
    decreases Extent(b, o) - Along(q, o)
  {
    if LetterFollows(b, q, o) then
      var n := Successor(b, q, o).value;
      [b.squares[n].letterTile.value.letter] + LettersAfter(b, n, o)
    else []
  }

  /** The sum of the letter values of the run after `q`. */
  function SumAfter(b: BoardState, q: Position, o: Orientation): int
    requires Grid(b)
    decreases Extent(b, o) - Along(q, o)
  {
    if LetterFollows(b, q, o) then
      var n := Successor(b, q, o).value;
      LetterValue(b, n) + SumAfter(b, n, o)
    else 0
  }

  /** The product of the word multipliers of the run after `q`. */
  function ProductAfter(b: BoardState, q: Position, o: Orientation): int
    requires Grid(b)
    decreases Extent(b, o) - Along(q, o)
  {
    if LetterFollows(b, q, o) then
      var n := Successor(b, q, o).value;
      b.squares[n].wordMultiplier * ProductAfter(b, n, o)
    else 1
  }

  /** The run from a letter is that letter followed by the run after it, in letters, sum and product. */
  lemma {:induction false} RunFromTally(b: BoardState, q: Position, o: Orientation)
    requires Grid(b) && HasLetterAt(b, q)
    ensures AllLettered(b, RunFrom(b, q, o))
    ensures LettersOf(b, RunFrom(b, q, o)) == [b.squares[q].letterTile.value.letter] + LettersAfter(b, q, o)
    ensures LetterSum(b, RunFrom(b, q, o)) == LetterValue(b, q) + SumAfter(b, q, o)
    ensures WordProduct(b, RunFrom(b, q, o)) == b.squares[q].wordMultiplier * ProductAfter(b, q, o)
    decreases Extent(b, o) - Along(q, o)
  {
    RunFromLettered(b, q, o);
    RunFromStep(b, q, o);
    var run := RunFrom(b, q, o);
    if LetterFollows(b, q, o) {
      var n := Successor(b, q, o).value;
      RunFromTally(b, n, o);
      assert run[0] == q && run[1..] == RunFrom(b, n, o);
      HeadTally(b, run);
    } else {
      assert run == [q];
    }
  }

  /** A run's letters, sum and product, split at its first square. */
  lemma HeadTally(b: BoardState, run: seq<Position>)
    requires AllLettered(b, run) && run != []
    ensures AllLettered(b, run[1..])
    ensures LettersOf(b, run) == [b.squares[run[0]].letterTile.value.letter] + LettersOf(b, run[1..])
    ensures LetterSum(b, run) == LetterValue(b, run[0]) + LetterSum(b, run[1..])
    ensures WordProduct(b, run) == b.squares[run[0]].wordMultiplier * WordProduct(b, run[1..])
  {
    assert AllLettered(b, run[1..]) by {
      forall i | 0 <= i < |run[1..]| ensures HasLetterAt(b, run[1..][i]) {
        assert run[1..][i] == run[i + 1];
      }
    }
  }

  /**
   * What the forward loop has collected once it stands at `cur`: together
   * with the run after `cur`, the letters, the sum and the product of the
   * whole run from `start`.
   */
  ghost predicate Collected(b: BoardState, start: Position, o: Orientation, cur: Position,
                      letters: seq<Letter>, sum: int, product: int)
  {
    && Grid(b) && HasLetterAt(b, start) && cur in b.squares
    && [b.squares[start].letterTile.value.letter] + LettersAfter(b, start, o) == letters + LettersAfter(b, cur, o)
    && LetterValue(b, start) + SumAfter(b, start, o) == sum + SumAfter(b, cur, o)
    && b.squares[start].wordMultiplier * ProductAfter(b, start, o) == product * ProductAfter(b, cur, o)
  }

  /** One round of the forward loop keeps what it has collected in step with the run. */
  lemma ForwardRound(b: BoardState, start: Position, o: Orientation, cur: Position,
                     letters: seq<Letter>, sum: int, product: int)
    requires Collected(b, start, o, cur, letters, sum, product) && LetterFollows(b, cur, o)
    ensures var n := Successor(b, cur, o).value;
      Collected(b, start, o, n, letters + [b.squares[n].letterTile.value.letter],
        sum + LetterValue(b, n), product * b.squares[n].wordMultiplier)
  {
    var n := Successor(b, cur, o).value;
    ForwardStep(b, cur, o);
    ProductStep(b, cur, o, product);
    var l := [b.squares[n].letterTile.value.letter];
    assert letters + (l + LettersAfter(b, n, o)) == (letters + l) + LettersAfter(b, n, o);
  }

  /** When the forward loop stops, what it collected is the word of the whole run. */
  lemma ForwardDone(b: BoardState, start: Position, o: Orientation, cur: Position,
                    letters: seq<Letter>, sum: int, product: int)
    requires Collected(b, start, o, cur, letters, sum, product) && !LetterFollows(b, cur, o)
    ensures AllLettered(b, RunFrom(b, start, o))
    ensures WordOf(b, RunFrom(b, start, o)) == if |letters| > 1 then Some(PlayedWord(letters, sum * product)) else None
  {
    RunFromTally(b, start, o);
    var run := RunFrom(b, start, o);
    assert LettersOf(b, run) == letters;
  }

  /** Folding the next word multiplier into a running product keeps the total. */
  lemma ProductStep(b: BoardState, q: Position, o: Orientation, product: int)
    requires Grid(b) && LetterFollows(b, q, o)
    ensures var n := Successor(b, q, o).value;
      product * ProductAfter(b, q, o) == (product * b.squares[n].wordMultiplier) * ProductAfter(b, n, o)
  {
    var n := Successor(b, q, o).value;
    var w, rest := b.squares[n].wordMultiplier, ProductAfter(b, n, o);
    assert ProductAfter(b, q, o) == w * rest;
    assert product * (w * rest) == (product * w) * rest;
  }

  /** One round of the forward loop, onto the letter `n` after `q`. */
  lemma ForwardStep(b: BoardState, q: Position, o: Orientation)
    requires Grid(b) && LetterFollows(b, q, o)
    ensures var n := Successor(b, q, o).value;
      && LettersAfter(b, q, o) == [b.squares[n].letterTile.value.letter] + LettersAfter(b, n, o)
      && SumAfter(b, q, o) == LetterValue(b, n) + SumAfter(b, n, o)
  {
  }

  // ---------------------------------------------------------------------------
  // What getContinuousWord computes, stated without its loops.
  // ---------------------------------------------------------------------------

  /** Every position from `lo` to `hi` on `p`'s line carries a letter. */
  predicate Lettered(b: BoardState, p: Position, o: Orientation, lo: nat, hi: nat)
  {
    forall k :: lo <= k <= hi ==> HasLetterAt(b, Cell(p, o, k))
  }

  /** `[lo, hi]` is the longest stretch of letters on `p`'s line that contains `p`. */
  predicate MaximalRun(b: BoardState, p: Position, o: Orientation, lo: nat, hi: nat)
  {
    && lo <= Along(p, o) <= hi
    && Lettered(b, p, o, lo, hi)
    && (lo == 0 || !HasLetterAt(b, Cell(p, o, lo - 1)))
    && !HasLetterAt(b, Cell(p, o, hi + 1))
  }

  /** The positions of `p`'s line from `lo` to `hi`, in order. */
  function CellRange(p: Position, o: Orientation, lo: nat, hi: nat): (run: seq<Position>)
    requires lo <= hi
    ensures |run| == hi - lo + 1
    ensures forall i :: 0 <= i < |run| ==> run[i] == Cell(p, o, lo + i)
  {
    seq(hi - lo + 1, i requires 0 <= i => Cell(p, o, lo + i))
  }

  lemma {:induction false} RunStartFindsStart(b: BoardState, p: Position, o: Orientation, lo: nat)
    requires Grid(b) && lo <= Along(p, o) && Lettered(b, p, o, lo, Along(p, o))
    requires lo == 0 || !HasLetterAt(b, Cell(p, o, lo - 1))
    ensures HasLetterAt(b, p)
    ensures lo == 0 ==> RunStart(b, p, o).Err?
    ensures lo > 0 ==> RunStart(b, p, o) == Ok(Cell(p, o, lo))
    decreases Along(p, o)
  {
    assert Cell(p, o, Along(p, o)) == p;
    AdjacentBackwards(p, o);
    if Along(p, o) > 0 {
      var n := Cell(p, o, Along(p, o) - 1);
      assert n in b.squares;
      if Along(p, o) > lo {
        forall k | lo <= k <= Along(n, o) ensures HasLetterAt(b, Cell(n, o, k)) {
          assert Cell(n, o, k) == Cell(p, o, k);
        }
        assert lo > 0 ==> Cell(n, o, lo - 1) == Cell(p, o, lo - 1);
        RunStartFindsStart(b, n, o, lo);
        assert Cell(n, o, lo) == Cell(p, o, lo);
      }
    }
  }

  lemma {:induction false} RunFromFindsEnd(b: BoardState, q: Position, o: Orientation, hi: nat)
    requires Grid(b) && Along(q, o) <= hi && Lettered(b, q, o, Along(q, o), hi)
    requires !HasLetterAt(b, Cell(q, o, hi + 1))
    ensures q in b.squares
    ensures RunFrom(b, q, o) == CellRange(q, o, Along(q, o), hi)
    decreases hi - Along(q, o)
  {
    CellOfCell(q, o, Along(q, o));
    assert HasLetterAt(b, Cell(q, o, Along(q, o)));
    var n := Cell(q, o, Along(q, o) + 1);
    if Along(q, o) < hi {
      LetteredOnSameLine(b, q, n, o, Along(n, o), hi);
      CellOnSameLine(q, n, o, hi + 1);
      RunFromFindsEnd(b, n, o, hi);
      CellRangeCons(q, o, hi);
    } else {
      assert RunFrom(b, q, o) == [q];
    }
  }

  lemma CellOfCell(p: Position, o: Orientation, k: nat)
    ensures Cell(p, o, Along(p, o)) == p
    ensures SameLine(Cell(p, o, k), p, o)
  {
  }

  lemma CellOnSameLine(p: Position, q: Position, o: Orientation, k: nat)
    requires SameLine(p, q, o)
    ensures Cell(p, o, k) == Cell(q, o, k)
  {
  }

  lemma LetteredOnSameLine(b: BoardState, p: Position, q: Position, o: Orientation, lo: nat, hi: nat)
    requires SameLine(p, q, o) && Lettered(b, p, o, lo, hi)
    ensures Lettered(b, q, o, lo, hi)
  {
    forall k | lo <= k <= hi ensures HasLetterAt(b, Cell(q, o, k)) {
      CellOnSameLine(p, q, o, k);
    }
  }

  lemma CellRangeCons(q: Position, o: Orientation, hi: nat)
    requires Along(q, o) < hi
    ensures [q] + CellRange(Cell(q, o, Along(q, o) + 1), o, Along(q, o) + 1, hi) == CellRange(q, o, Along(q, o), hi)
  {
    var n := Cell(q, o, Along(q, o) + 1);
    var left := [q] + CellRange(n, o, Along(q, o) + 1, hi);
    var right := CellRange(q, o, Along(q, o), hi);
    assert |left| == |right|;
    forall i | 0 <= i < |left| ensures left[i] == right[i] {
      if i == 0 {
        CellOfCell(q, o, 0);
      } else {
        CellOnSameLine(n, q, o, Along(q, o) + i);
      }
    }
  }

  /** Every letter lies on exactly one maximal run of its line. */
  lemma MaximalRunExists(b: BoardState, p: Position, o: Orientation) returns (lo: nat, hi: nat)
    requires Grid(b) && HasLetterAt(b, p)
    ensures MaximalRun(b, p, o, lo, hi)
  {
    assert Cell(p, o, Along(p, o)) == p;
    lo := RunLow(b, p, o, Along(p, o));
    hi := RunHigh(b, p, o, Along(p, o));
  }

  lemma {:induction false} RunLow(b: BoardState, p: Position, o: Orientation, k: nat) returns (lo: nat)
    requires k <= Along(p, o) && Lettered(b, p, o, k, Along(p, o))
    ensures lo <= k && Lettered(b, p, o, lo, Along(p, o))
    ensures lo == 0 || !HasLetterAt(b, Cell(p, o, lo - 1))
    decreases k
  {
    if k == 0 || !HasLetterAt(b, Cell(p, o, k - 1)) {
      lo := k;
    } else {
      lo := RunLow(b, p, o, k - 1);
    }
  }

  lemma {:induction false} RunHigh(b: BoardState, p: Position, o: Orientation, k: nat) returns (hi: nat)
    requires Grid(b) && Along(p, o) <= k && Lettered(b, p, o, Along(p, o), k)
    ensures k <= hi && Lettered(b, p, o, Along(p, o), hi)
    ensures !HasLetterAt(b, Cell(p, o, hi + 1))
    decreases Extent(b, o) - k
  {
    assert HasLetterAt(b, Cell(p, o, k));
    if !HasLetterAt(b, Cell(p, o, k + 1)) {
      hi := k;
    } else {
      hi := RunHigh(b, p, o, k + 1);
    }
  }

  /**
   * The word through a letter is its maximal run of letters: none when the run
   * is a single letter, otherwise its letters in order and their score. A run
   * that reaches the top or left edge throws, because the backward scan steps
   * off the board through `adjacent`.
   */
  lemma ContinuousWordIsMaximalRun(b: BoardState, p: Position, o: Orientation, lo: nat, hi: nat)
    requires Grid(b) && MaximalRun(b, p, o, lo, hi)
    ensures lo == 0 ==> ContinuousWord(b, p, o).Err?
    ensures lo > 0 ==> AllLettered(b, CellRange(p, o, lo, hi))
    ensures lo > 0 ==> ContinuousWord(b, p, o) == Ok(WordOf(b, CellRange(p, o, lo, hi)))
  {
    assert Cell(p, o, Along(p, o)) == p;
    RunStartFindsStart(b, p, o, lo);
    if lo > 0 {
      var start := Cell(p, o, lo);
      forall k | Along(start, o) <= k <= hi ensures HasLetterAt(b, Cell(start, o, k)) {
        assert Cell(start, o, k) == Cell(p, o, k);
      }
      assert Cell(start, o, hi + 1) == Cell(p, o, hi + 1);
      RunFromFindsEnd(b, start, o, hi);
      assert CellRange(start, o, lo, hi) == CellRange(p, o, lo, hi);
    }
  }

  // ---------------------------------------------------------------------------
  // hasAdjacentLetter
  // ---------------------------------------------------------------------------

  /** The loop of hasAdjacentLetter over the directions still to try. */
  function AdjacentLetterFrom(b: BoardState, p: Position, ds: seq<Direction>): Result<bool>
  {
    if ds == [] then Ok(false)
    else
      var n :- NextPosition(b, p, ds[0]);
      if n.Some? && HasLetterAt(b, n.value) then Ok(true) else AdjacentLetterFrom(b, p, ds[1..])
  }

  /**
   * `hasAdjacentLetter`: tries UP, DOWN, RIGHT and LEFT in that order and
   * stops at the first neighbour with a letter.
   */
  function HasAdjacentLetter(b: BoardState, p: Position): Result<bool>
  {
    AdjacentLetterFrom(b, p, AllDirections)
  }

  /** The square at (row, col) exists and carries a letter. */
  predicate LetterAtCoords(b: BoardState, row: int, col: int)
  {
    row >= 0 && col >= 0 && HasLetterAt(b, Position(row, col))
  }

  /**
   * hasAdjacentLetter is true exactly when an orthogonal neighbour carries a
   * letter, but it throws on the top row, and on the left column unless the
   * neighbour above, below or to the right already answered true.
   */
  lemma HasAdjacentLetterSpec(b: BoardState, p: Position)
    ensures var r := HasAdjacentLetter(b, p);
      var up := LetterAtCoords(b, p.row - 1, p.col);
      var down := LetterAtCoords(b, p.row + 1, p.col);
      var right := LetterAtCoords(b, p.row, p.col + 1);
      var left := LetterAtCoords(b, p.row, p.col - 1);
      && (r.Err? <==> p.row == 0 || (p.col == 0 && !up && !down && !right))
      && (r.Ok? ==> (r.value <==> up || down || right || left))
  {
    HasAdjacentLetterUnfold(b, p);
  }

  /** The four rounds of hasAdjacentLetter written out. */
  lemma HasAdjacentLetterUnfold(b: BoardState, p: Position)
    ensures HasAdjacentLetter(b, p) ==
      if p.row == 0 then Err(IllegalArgument("Row and column must be positive values."))
      else if LetterAtCoords(b, p.row - 1, p.col) then Ok(true)
      else if LetterAtCoords(b, p.row + 1, p.col) then Ok(true)
      else if LetterAtCoords(b, p.row, p.col + 1) then Ok(true)
      else if p.col == 0 then Err(IllegalArgument("Row and column must be positive values."))
      else Ok(LetterAtCoords(b, p.row, p.col - 1))
  {
    var bad := Err(IllegalArgument("Row and column must be positive values."));
    var left := if p.col == 0 then bad else Ok(LetterAtCoords(b, p.row, p.col - 1));
    assert AdjacentLetterFrom(b, p, [Left]) == left by {
      AdjacentLetterStep(b, p, Left, []);
      assert [Left] + [] == [Left];
    }
    var right := if LetterAtCoords(b, p.row, p.col + 1) then Ok(true) else left;
    assert AdjacentLetterFrom(b, p, [Right, Left]) == right by {
      AdjacentLetterStep(b, p, Right, [Left]);
    }
    var down := if LetterAtCoords(b, p.row + 1, p.col) then Ok(true) else right;
    assert AdjacentLetterFrom(b, p, [Down, Right, Left]) == down by {
      AdjacentLetterStep(b, p, Down, [Right, Left]);
    }
    assert AdjacentLetterFrom(b, p, AllDirections) ==
      if p.row == 0 then bad else if LetterAtCoords(b, p.row - 1, p.col) then Ok(true) else down by {
      AdjacentLetterStep(b, p, Up, [Down, Right, Left]);
      assert AllDirections == [Up] + [Down, Right, Left];
    }
  }

  /** One round of the hasAdjacentLetter loop, stated in row and column terms. */
  lemma AdjacentLetterStep(b: BoardState, p: Position, d: Direction, ds: seq<Direction>)
    ensures var r := AdjacentLetterFrom(b, p, [d] + ds);
      var row := p.row + RowDelta(d);
      var col := p.col + ColDelta(d);
      && (row < 0 || col < 0 ==> r == Err(IllegalArgument("Row and column must be positive values.")))
      && (row >= 0 && col >= 0 ==>
            r == if LetterAtCoords(b, row, col) then Ok(true) else AdjacentLetterFrom(b, p, ds))
  {
    assert ([d] + ds)[1..] == ds;
    assert AdjacentLetterFrom(b, p, []) == Ok(false);
    var q := Adjacent(d, p);
    if q.Ok? {
      assert q.value.value == Position(p.row + RowDelta(d), p.col + ColDelta(d));
    }
  }

  // ---------------------------------------------------------------------------
  // isValidMove
  // ---------------------------------------------------------------------------

  /**
   * The contiguity loop of isValidMove: from `cur` towards `stop`, every
   * square must hold a letter or be one of the placements. The loop also ends
   * when the next square is off the board.
   */
  function Walk(b: BoardState, cur: Position, stop: Position, o: Orientation, ps: seq<Position>): Result<bool>
    requires Grid(b)
    decreases if cur in b.squares then Extent(b, o) + 1 - Along(cur, o) else 0
  {
    if cur == stop then Ok(true)
    else if cur !in b.squares then Err(NullPointer)
    else if !(HasLetterAt(b, cur) || cur in ps) then Ok(false)
    else
      var n := Cell(cur, o, Along(cur, o) + 1);
      if n in b.squares then Walk(b, n, stop, o, ps) else Ok(true)
  }

  /** One round of the contiguity loop. */
  lemma WalkStep(b: BoardState, cur: Position, stop: Position, o: Orientation, ps: seq<Position>)
    requires Grid(b) && cur != stop && cur in b.squares && (HasLetterAt(b, cur) || cur in ps)
    ensures NextPosition(b, cur, Forwards(o)) == Ok(Successor(b, cur, o))
    ensures Walk(b, cur, stop, o, ps) ==
      if Successor(b, cur, o).Some? then Walk(b, Successor(b, cur, o).value, stop, o, ps) else Ok(true)
  {
    AdjacentForwards(cur, o);
  }

  /**
   * `isValidMove`: the player must hold every tile, the placements must share
   * a row or a column, every square from the upper-left corner up to the one
   * after the lower-right corner must hold a letter or a placement, and the
   * move must either be a first move of two or more tiles or touch a letter
   * at one of its corners. The square after the lower-right corner is looked
   * up as `stopPosition`; when it is off the board, `position.equals(null)`
   * dereferences null.
   */
  function IsValidMove(b: BoardState, rack: seq<LetterTile>, m: Move, isFirstMove: bool): Result<bool>
    requires Grid(b) && m.Valid()
  {
    if !(forall t :: t in m.Tiles() ==> t in rack) then Ok(false)
    else
      var ps := m.Positions();
      if !(SameRow(ps) || SameCol(ps)) then Ok(false)
      else
        MoveOnLine(b, m, if SameRow(ps) then Horizontal else Vertical, isFirstMove)
  }

  /** The tests of isValidMove once the placements are known to lie along orientation `o`. */
  function MoveOnLine(b: BoardState, m: Move, o: Orientation, isFirstMove: bool): Result<bool>
    requires Grid(b)
  {
    var stop := Cell(m.lowerRight, o, Along(m.lowerRight, o) + 1);
    if stop !in b.squares then Err(NullPointer)
    else
      var contiguous :- Walk(b, m.upperLeft, stop, o, m.Positions());
      if !contiguous then Ok(false) else Anchored(b, m, isFirstMove)
  }

  /**
   * The last test of isValidMove: a first move must place two or more tiles,
   * a later one must have a letter beside its upper-left or lower-right corner.
   */
  function Anchored(b: BoardState, m: Move, isFirstMove: bool): Result<bool>
  {
    if isFirstMove then Ok(m.upperLeft != m.lowerRight)
    else
      var nearUpperLeft :- HasAdjacentLetter(b, m.upperLeft);
      if nearUpperLeft then Ok(true) else HasAdjacentLetter(b, m.lowerRight)
  }

  /** Every square of `p`'s line from `lo` up to (not including) `hi` holds a letter or a placement. */
  predicate Filled(b: BoardState, p: Position, o: Orientation, lo: nat, hi: nat, ps: seq<Position>)
  {
    forall k :: lo <= k < hi ==> HasLetterAt(b, Cell(p, o, k)) || Cell(p, o, k) in ps
  }

  /** Towards a square on the board, the walk never throws and succeeds exactly over filled squares. */
  lemma {:induction false} WalkSpec(b: BoardState, cur: Position, stop: Position, o: Orientation, ps: seq<Position>)
    requires Grid(b) && stop in b.squares && SameLine(cur, stop, o) && Along(cur, o) <= Along(stop, o)
    ensures Walk(b, cur, stop, o, ps) == Ok(Filled(b, cur, o, Along(cur, o), Along(stop, o), ps))
    decreases Along(stop, o) - Along(cur, o)
  {
    CellOfCell(cur, o, 0);
    CellOfCell(stop, o, 0);
    if cur != stop {
      assert Along(cur, o) < Along(stop, o);
      var n := Cell(cur, o, Along(cur, o) + 1);
      CellOnSameLine(cur, stop, o, Along(cur, o) + 1);
      if HasLetterAt(b, cur) || cur in ps {
        WalkSpec(b, n, stop, o, ps);
        forall k | Along(n, o) <= k < Along(stop, o) ensures Cell(n, o, k) == Cell(cur, o, k) {
          CellOnSameLine(n, cur, o, k);
        }
      }
    }
  }

  /** Setting a letter at a square gives the board with that square's letter replaced. */
  function PutLetter(b: BoardState, q: Position, t: LetterTile): BoardState
    requires q in b.squares
  {
    b.(squares := b.squares[q := b.squares[q].(letterTile := Some(t))])
  }

  /** The walk reads a placement's square only to learn it may be passed, so its letter does not matter. */
  lemma {:induction false} WalkIgnoresPlacedSquares(b: BoardState, cur: Position, stop: Position, o: Orientation, ps: seq<Position>, q: Position, t: LetterTile)
    requires Grid(b) && q in b.squares && q in ps
    ensures Grid(PutLetter(b, q, t))
    ensures Walk(PutLetter(b, q, t), cur, stop, o, ps) == Walk(b, cur, stop, o, ps)
    decreases if cur in b.squares then Extent(b, o) + 1 - Along(cur, o) else 0
  {
    var b' := PutLetter(b, q, t);
    assert b'.squares.Keys == b.squares.Keys;
    if cur != stop && cur in b.squares && (HasLetterAt(b, cur) || cur in ps) {
      var n := Cell(cur, o, Along(cur, o) + 1);
      if n in b.squares {
        WalkIgnoresPlacedSquares(b, n, stop, o, ps, q, t);
      }
    }
  }

  /**
   * isValidMove does not check that the placement squares are empty: on a
   * first move, a letter already lying under a placement changes nothing.
   */
  lemma FirstMoveIgnoresOccupiedSquares(b: BoardState, rack: seq<LetterTile>, m: Move, q: Position, t: LetterTile)
    requires Grid(b) && m.Valid() && q in b.squares && q in m.Positions()
    ensures Grid(PutLetter(b, q, t))
    ensures IsValidMove(PutLetter(b, q, t), rack, m, true) == IsValidMove(b, rack, m, true)
  {
    var b' := PutLetter(b, q, t);
    assert b'.squares.Keys == b.squares.Keys;
    var ps := m.Positions();
    if SameRow(ps) || SameCol(ps) {
      var o := if SameRow(ps) then Horizontal else Vertical;
      var stop := Cell(m.lowerRight, o, Along(m.lowerRight, o) + 1);
      WalkIgnoresPlacedSquares(b, m.upperLeft, stop, o, ps, q, t);
    }
  }

  /** The corners of a move laid along a line, and where every placement sits between them. */
  lemma LineCorners(m: Move, o: Orientation)
    requires m.Valid()
    requires o == (if SameRow(m.Positions()) then Horizontal else Vertical)
    requires SameRow(m.Positions()) || SameCol(m.Positions())
    ensures SameLine(m.upperLeft, m.lowerRight, o)
    ensures Along(m.upperLeft, o) <= Along(m.lowerRight, o)
    ensures forall i :: 0 <= i < |m.placements| ==>
      SameLine(m.placements[i].position, m.upperLeft, o) &&
      Along(m.upperLeft, o) <= Along(m.placements[i].position, o) <= Along(m.lowerRight, o)
  {
    if SameRow(m.Positions()) {
      CornersOfRow(m);
    } else {
      CornersOfCol(m);
    }
  }

  /** The direction an accepted move's contiguity walk takes. */
  function LineOf(m: Move): Orientation
  {
    if SameRow(m.Positions()) then Horizontal else Vertical
  }

  /** The square after a move's lower-right corner: isValidMove's `stopPosition`. */
  function StopOf(m: Move): Position
  {
    Cell(m.lowerRight, LineOf(m), Along(m.lowerRight, LineOf(m)) + 1)
  }

  /** An accepted move is held by the player, lies on one line on the board, and leaves no gap. */
  lemma IsValidMoveAcceptedShape(b: BoardState, rack: seq<LetterTile>, m: Move, isFirstMove: bool)
    requires Grid(b) && m.Valid()
    requires IsValidMove(b, rack, m, isFirstMove) == Ok(true)
    ensures forall t :: t in m.Tiles() ==> t in rack
    ensures SameRow(m.Positions()) || SameCol(m.Positions())
    ensures StopOf(m) in b.squares
    ensures Filled(b, m.upperLeft, LineOf(m), Along(m.upperLeft, LineOf(m)), Along(m.lowerRight, LineOf(m)) + 1, m.Positions())
    ensures forall i :: 0 <= i < |m.placements| ==> m.placements[i].position in b.squares
  {
    var ps := m.Positions();
    var o := LineOf(m);
    var stop := StopOf(m);
    LineCorners(m, o);
    CellOnSameLine(m.lowerRight, m.upperLeft, o, Along(m.lowerRight, o) + 1);
    WalkSpec(b, m.upperLeft, stop, o, ps);
    forall i | 0 <= i < |m.placements| ensures m.placements[i].position in b.squares {
      var q := m.placements[i].position;
      CellOnSameLine(q, stop, o, Along(q, o));
      CellOfCell(q, o, 0);
    }
  }

  /** An accepted first move has two or more tiles; an accepted later move touches a letter at a corner. */
  lemma IsValidMoveAcceptedAnchor(b: BoardState, rack: seq<LetterTile>, m: Move, isFirstMove: bool)
    requires Grid(b) && m.Valid()
    requires IsValidMove(b, rack, m, isFirstMove) == Ok(true)
    ensures isFirstMove ==> |m.placements| >= 2
    ensures !isFirstMove ==> Touches(b, m.upperLeft) || Touches(b, m.lowerRight)
  {
    assert Anchored(b, m, isFirstMove) == Ok(true);
    AnchoredMeans(b, m, isFirstMove);
  }

  /** What the last test of isValidMove accepts. */
  lemma AnchoredMeans(b: BoardState, m: Move, isFirstMove: bool)
    requires Grid(b) && m.Valid()
    requires Anchored(b, m, isFirstMove) == Ok(true)
    ensures isFirstMove ==> |m.placements| >= 2
    ensures !isFirstMove ==> Touches(b, m.upperLeft) || Touches(b, m.lowerRight)
  {
    if isFirstMove {
      CornersCoincideIffSingle(m);
    } else {
      HasAdjacentLetterSpec(b, m.upperLeft);
      HasAdjacentLetterSpec(b, m.lowerRight);
    }
  }

  /** Some orthogonal neighbour of `p` carries a letter. */
  predicate Touches(b: BoardState, p: Position)
  {
    || LetterAtCoords(b, p.row - 1, p.col) || LetterAtCoords(b, p.row + 1, p.col)
    || LetterAtCoords(b, p.row, p.col + 1) || LetterAtCoords(b, p.row, p.col - 1)
  }

  /**
   * What an accepted move satisfies: the player holds all its tiles; they lie
   * on one line, on the board; every square from one corner to the other
   * holds a letter or a placement; the square after the lower-right corner
   * exists; a first move places at least two tiles, and a later one has a
   * letter beside one of its corners.
   */
  lemma IsValidMoveAccepted(b: BoardState, rack: seq<LetterTile>, m: Move, isFirstMove: bool)
    requires Grid(b) && m.Valid()
    requires IsValidMove(b, rack, m, isFirstMove) == Ok(true)
    ensures forall t :: t in m.Tiles() ==> t in rack
    ensures SameRow(m.Positions()) || SameCol(m.Positions())
    ensures StopOf(m) in b.squares
    ensures Filled(b, m.upperLeft, LineOf(m), Along(m.upperLeft, LineOf(m)), Along(m.lowerRight, LineOf(m)) + 1, m.Positions())
    ensures forall i :: 0 <= i < |m.placements| ==> m.placements[i].position in b.squares
    ensures isFirstMove ==> |m.placements| >= 2
    ensures !isFirstMove ==> Touches(b, m.upperLeft) || Touches(b, m.lowerRight)
  {
    IsValidMoveAcceptedShape(b, rack, m, isFirstMove);
    IsValidMoveAcceptedAnchor(b, rack, m, isFirstMove);
  }

  /**
   * Conversely, a move the player holds, laid on one line with no gap and a
   * square after it, is accepted as a first move of two or more tiles, and as
   * a later move when hasAdjacentLetter answers true at its upper-left corner,
   * or false there and true at its lower-right corner.
   */
  lemma IsValidMoveAccepts(b: BoardState, rack: seq<LetterTile>, m: Move, isFirstMove: bool)
    requires Grid(b) && m.Valid()
    requires forall t :: t in m.Tiles() ==> t in rack
    requires SameRow(m.Positions()) || SameCol(m.Positions())
    requires StopOf(m) in b.squares
    requires Filled(b, m.upperLeft, LineOf(m), Along(m.upperLeft, LineOf(m)), Along(m.lowerRight, LineOf(m)) + 1, m.Positions())
    requires isFirstMove ==> |m.placements| >= 2
    requires !isFirstMove ==>
      || HasAdjacentLetter(b, m.upperLeft) == Ok(true)
      || (HasAdjacentLetter(b, m.upperLeft) == Ok(false) && HasAdjacentLetter(b, m.lowerRight) == Ok(true))
    ensures IsValidMove(b, rack, m, isFirstMove) == Ok(true)
  {
    var ps := m.Positions();
    var o := LineOf(m);
    var stop := StopOf(m);
    LineCorners(m, o);
    CellOnSameLine(m.lowerRight, m.upperLeft, o, Along(m.lowerRight, o) + 1);
    WalkSpec(b, m.upperLeft, stop, o, ps);
    if isFirstMove {
      CornersCoincideIffSingle(m);
    }
  }

  /**
   * A move along a row that ends in the last column (or along a column that
   * ends in the last row) throws once the rack and line checks pass, since
   * there is no square after its lower-right corner.
   */
  lemma IsValidMoveThrowsAtFarEdge(b: BoardState, rack: seq<LetterTile>, m: Move, isFirstMove: bool)
    requires Grid(b) && m.Valid()
    requires forall t :: t in m.Tiles() ==> t in rack
    requires SameRow(m.Positions()) || SameCol(m.Positions())
    requires Along(m.lowerRight, LineOf(m)) + 1 >= Extent(b, LineOf(m))
    ensures IsValidMove(b, rack, m, isFirstMove) == Err(NullPointer)
  {
  }
}
