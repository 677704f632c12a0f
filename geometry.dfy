/** Board coordinates and the four directions (board/Position.java, board/Direction.java). */
module Geometry {
  import opened Wrappers

  /**
   * A square's coordinates. The Java constructor refuses negative values, so
   * every position that exists has natural coordinates.
   */
  datatype Position = Position(row: nat, col: nat)

  /** `new Position(row, col)`: throws for a negative row or column. */
  function NewPosition(row: int, col: int): (r: Result<Position>)
    ensures r.Ok? <==> row >= 0 && col >= 0
    ensures r.Ok? ==> r.value.row == row && r.value.col == col
  {
    if row < 0 || col < 0 then Err(IllegalArgument("Row and column must be positive values."))
    else Ok(Position(row, col))
  }

  /** `hashCode`: 31 * row + col. */
  function HashCode(p: Position): int
  {
    31 * p.row + p.col
  }

  /** On any board narrower than 31 columns, distinct positions hash apart. */
  lemma HashCodeInjective(p: Position, q: Position)
    requires p.col < 31 && q.col < 31
    requires HashCode(p) == HashCode(q)
    ensures p == q
  {
  }

  /**
   * The squared Euclidean distance from the origin. Java compares the square
   * roots as doubles; on a board this small the order is the same.
   */
  function Dist2(p: Position): nat
  {
    p.row * p.row + p.col * p.col
  }

  /** `compareTo`: 0 for equal positions, -1 when strictly closer to the origin, otherwise 1. */
  function CompareTo(p: Position, q: Position): (c: int)
    ensures c in {-1, 0, 1}
    ensures c == 0 <==> p == q
    ensures c == -1 <==> Dist2(p) < Dist2(q)
    ensures c == 1 <==> p != q && Dist2(q) <= Dist2(p)
  {
    if p == q then 0 else if Dist2(p) < Dist2(q) then -1 else 1
  }

  /**
   * Two distinct positions at the same distance from the origin each compare
   * greater than the other, so `compareTo` is not antisymmetric.
   */
  lemma CompareToNotAntisymmetric()
    ensures CompareTo(Position(0, 1), Position(1, 0)) == 1
    ensures CompareTo(Position(1, 0), Position(0, 1)) == 1
  {
  }

  /** `compareTo` never says both "less" one way and "less" the other way. */
  lemma CompareToLessIsAsymmetric(p: Position, q: Position)
    requires CompareTo(p, q) == -1
    ensures CompareTo(q, p) == 1
  {
  }

  /** Along one row, being closer to the origin means being further left. */
  lemma Dist2AlongRow(p: Position, q: Position)
    requires p.row == q.row
    ensures Dist2(p) < Dist2(q) <==> p.col < q.col
    ensures Dist2(p) == Dist2(q) <==> p.col == q.col
  {
    if p.col < q.col {
      assert p.col * p.col < q.col * q.col by { SquareMonotone(p.col, q.col); }
    } else if q.col < p.col {
      assert q.col * q.col < p.col * p.col by { SquareMonotone(q.col, p.col); }
    }
  }

  /** Along one column, being closer to the origin means being further up. */
  lemma Dist2AlongCol(p: Position, q: Position)
    requires p.col == q.col
    ensures Dist2(p) < Dist2(q) <==> p.row < q.row
    ensures Dist2(p) == Dist2(q) <==> p.row == q.row
  {
    if p.row < q.row {
      assert p.row * p.row < q.row * q.row by { SquareMonotone(p.row, q.row); }
    } else if q.row < p.row {
      assert q.row * q.row < p.row * p.row by { SquareMonotone(q.row, p.row); }
    }
  }

  lemma SquareMonotone(a: nat, b: nat)
    requires a < b
    ensures a * a < b * b
  {
    assert a * a <= a * b;
    assert a * b < b * b;
  }

  /** The predicate `rowsAllEqual` decides: fewer than two positions, or all on the first one's row. */
  predicate SameRow(ps: seq<Position>)
  {
    forall i :: 0 <= i < |ps| ==> ps[i].row == ps[0].row
  }

  /** The predicate `colsAllEqual` decides. */
  predicate SameCol(ps: seq<Position>)
  {
    forall i :: 0 <= i < |ps| ==> ps[i].col == ps[0].col
  }

  /** `rowsAllEqual`: true for lists shorter than two, else whether every row matches the first. */
  method RowsAllEqual(ps: seq<Position>) returns (b: bool)
    ensures b <==> forall i, j :: 0 <= i < |ps| && 0 <= j < |ps| ==> ps[i].row == ps[j].row
    ensures b == SameRow(ps)
  {
    if |ps| < 2 {
      return true;
    }
    var row := ps[0].row;
    var k := 0;
    while k < |ps|
      invariant 0 <= k <= |ps|
      invariant forall i :: 0 <= i < k ==> ps[i].row == row
    {
      if ps[k].row != row {
        return false;
      }
      k := k + 1;
    }
    return true;
  }

  /** `colsAllEqual`: true for lists shorter than two, else whether every column matches the first. */
  method ColsAllEqual(ps: seq<Position>) returns (b: bool)
    ensures b <==> forall i, j :: 0 <= i < |ps| && 0 <= j < |ps| ==> ps[i].col == ps[j].col
    ensures b == SameCol(ps)
  {
    if |ps| < 2 {
      return true;
    }
    var col := ps[0].col;
    var k := 0;
    while k < |ps|
      invariant 0 <= k <= |ps|
      invariant forall i :: 0 <= i < k ==> ps[i].col == col
    {
      if ps[k].col != col {
        return false;
      }
      k := k + 1;
    }
    return true;
  }

  /** The four directions, in the order `Direction.values()` lists them. */
  datatype Direction = Up | Down | Right | Left

  const AllDirections: seq<Direction> := [Up, Down, Right, Left]

  function RowDelta(d: Direction): int
  {
    match d
    case Up => -1
    case Down => 1
    case _ => 0
  }

  function ColDelta(d: Direction): int
  {
    match d
    case Right => 1
    case Left => -1
    case _ => 0
  }

  /**
   * `Direction.adjacent`. The guard is `newRow >= 0 || newCol >= 0`, which
   * holds for every position, so a step off the top or left edge reaches the
   * Position constructor and throws instead of yielding null.
   */
  function Adjacent(d: Direction, p: Position): (r: Result<Option<Position>>)
    ensures r.Err? <==> (d == Up && p.row == 0) || (d == Left && p.col == 0)
    ensures r.Ok? ==> r.value.Some?
    ensures r.Ok? ==> r.value.value.row == p.row + RowDelta(d)
    ensures r.Ok? ==> r.value.value.col == p.col + ColDelta(d)
  {
    var newRow := p.row + RowDelta(d);
    var newCol := p.col + ColDelta(d);
    if newRow >= 0 || newCol >= 0 then
      var q :- NewPosition(newRow, newCol);
      Ok(Some(q))
    else
      Ok(None)
  }

  /** The `||` guard never lets `adjacent` return null. */
  lemma AdjacentNeverNull(d: Direction, p: Position)
    ensures Adjacent(d, p) != Ok(None)
  {
  }

  /**
   * The two lines a word can lie on: Move.Orientation's ACROSS and DOWN, and
   * the pairs of directions horizontalWordIncluding and verticalWordIncluding
   * scan with.
   */
  datatype Orientation = Horizontal | Vertical

  /** The direction a word scan walks back along: LEFT across, UP down. */
  function Backwards(o: Orientation): Direction
  {
    if o == Horizontal then Left else Up
  }

  /** The direction a word scan walks forward along: RIGHT across, DOWN down. */
  function Forwards(o: Orientation): Direction
  {
    if o == Horizontal then Right else Down
  }

  /** A position's coordinate along a line of orientation `o`. */
  function Along(p: Position, o: Orientation): nat
  {
    if o == Horizontal then p.col else p.row
  }

  /** The position on `p`'s line whose coordinate along it is `k`. */
  function Cell(p: Position, o: Orientation, k: nat): (q: Position)
    ensures Along(q, o) == k
  {
    if o == Horizontal then Position(p.row, k) else Position(k, p.col)
  }

  /** Two positions on one line of orientation `o`. */
  predicate SameLine(p: Position, q: Position, o: Orientation)
  {
    if o == Horizontal then p.row == q.row else p.col == q.col
  }

  /** Stepping forward adds one along the line and stays on it. */
  lemma AdjacentForwards(p: Position, o: Orientation)
    ensures Adjacent(Forwards(o), p) == Ok(Some(Cell(p, o, Along(p, o) + 1)))
  {
  }

  /** Stepping backward subtracts one along the line, and throws at coordinate 0. */
  lemma AdjacentBackwards(p: Position, o: Orientation)
    ensures Along(p, o) == 0 ==> Adjacent(Backwards(o), p).Err?
    ensures Along(p, o) > 0 ==> Adjacent(Backwards(o), p) == Ok(Some(Cell(p, o, Along(p, o) - 1)))
  {
  }
}
