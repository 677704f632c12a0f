/**
 * A move: the letter tiles a player places in one turn and the two corner
 * positions computed from them (game/Move.java, apart from `words` and
 * `totalScore`, which need a board and live in module Scoring).
 */
module Moves {
  import opened Wrappers
  import opened Letters
  import opened Geometry

  /** One entry of the placement map: a position and the tile put there. */
  datatype Placement = Placement(position: Position, tile: LetterTile)

  /**
   * The placement map's keys in its iteration order. Java iterates a HashMap,
   * and every loop in the program walks the same map (or a copy of it), so a
   * single sequence gives all of them the same order.
   */
  function PositionsOf(ps: seq<Placement>): (r: seq<Position>)
    ensures |r| == |ps|
    ensures forall i :: 0 <= i < |ps| ==> r[i] == ps[i].position
  {
    seq(|ps|, i requires 0 <= i < |ps| => ps[i].position)
  }

  /** The placement map's values, in the same order. */
  function TilesOf(ps: seq<Placement>): (r: seq<LetterTile>)
    ensures |r| == |ps|
    ensures forall i :: 0 <= i < |ps| ==> r[i] == ps[i].tile
  {
    seq(|ps|, i requires 0 <= i < |ps| => ps[i].tile)
  }

  /** The keys of a map are distinct. */
  predicate Distinct(ps: seq<Position>)
  {
    forall i, j :: 0 <= i < j < |ps| ==> ps[i] != ps[j]
  }

  /**
   * What computeUpperLeft returns: a position closest to the origin, and the
   * last such one in iteration order (a tie compares greater, so it replaces).
   */
  predicate IsUpperLeft(ps: seq<Position>, p: Position)
  {
    && p in ps
    && (forall j :: 0 <= j < |ps| ==> Dist2(p) <= Dist2(ps[j]))
    && (forall i, j :: 0 <= i < j < |ps| && ps[i] == p ==> Dist2(p) < Dist2(ps[j]))
  }

  /**
   * What computeLowerRight returns: a position furthest from the origin, and
   * the first such one in iteration order (a tie does not replace).
   */
  predicate IsLowerRight(ps: seq<Position>, p: Position)
  {
    && p in ps
    && (forall j :: 0 <= j < |ps| ==> Dist2(ps[j]) <= Dist2(p))
    && (forall i, j :: 0 <= j < i < |ps| && ps[i] == p ==> Dist2(ps[j]) < Dist2(p))
  }

  /** A move: its placements in iteration order, and its two corners. */
  datatype Move = Move(placements: seq<Placement>, upperLeft: Position, lowerRight: Position)
  {
    function Positions(): seq<Position>
    {
      PositionsOf(placements)
    }

    function Tiles(): seq<LetterTile>
    {
      TilesOf(placements)
    }

    /** What the constructor establishes and nothing later changes. */
    predicate Valid()
    {
      && |placements| >= 1
      && Distinct(Positions())
      && IsUpperLeft(Positions(), upperLeft)
      && IsLowerRight(Positions(), lowerRight)
    }

    /** `orientation`: ACROSS when the corners share a row, DOWN otherwise. */
    function Orientation(): Orientation
    {
      if upperLeft.row == lowerRight.row then Horizontal else Vertical
    }
  }

  /** `computeUpperLeft`: keeps the current candidate unless it compares greater than the next position. */
  method ComputeUpperLeft(ps: seq<Position>) returns (mostLeft: Position)
    requires |ps| >= 1 && Distinct(ps)
    ensures IsUpperLeft(ps, mostLeft)
  {
    mostLeft := ps[0];
    ghost var k := 0;
    var n := 0;
    while n < |ps|
      invariant 0 <= n <= |ps| && 0 <= k < |ps| && (k < n || k == 0)
      invariant mostLeft == ps[k]
      invariant forall j :: 0 <= j < n ==> Dist2(mostLeft) <= Dist2(ps[j])
      invariant forall j :: k < j < n ==> Dist2(mostLeft) < Dist2(ps[j])
    {
      if CompareTo(mostLeft, ps[n]) > 0 {
        mostLeft := ps[n];
        k := n;
      }
      n := n + 1;
    }
  }

  /** `computeLowerRight`: replaces the current candidate only by a position strictly further out. */
  method ComputeLowerRight(ps: seq<Position>) returns (mostRight: Position)
    requires |ps| >= 1 && Distinct(ps)
    ensures IsLowerRight(ps, mostRight)
  {
    mostRight := ps[0];
    ghost var k := 0;
    var n := 0;
    while n < |ps|
      invariant 0 <= n <= |ps| && 0 <= k < |ps| && (k < n || k == 0)
      invariant mostRight == ps[k]
      invariant forall j :: 0 <= j < n ==> Dist2(ps[j]) <= Dist2(mostRight)
      invariant forall j :: 0 <= j < k ==> Dist2(ps[j]) < Dist2(mostRight)
    {
      if CompareTo(mostRight, ps[n]) < 0 {
        mostRight := ps[n];
        k := n;
      }
      n := n + 1;
    }
  }

  /**
   * `new Move(placements)`: an empty map throws; otherwise the move keeps the
   * placements and both corners.
   */
  method NewMove(placements: seq<Placement>) returns (r: Result<Move>)
    requires Distinct(PositionsOf(placements))
    ensures r.Err? <==> |placements| == 0
    ensures r.Ok? ==> r.value.Valid() && r.value.placements == placements
  {
    if |placements| < 1 {
      return Err(IllegalArgument("Move must consist of at least one tile placement."));
    }
    var ps := PositionsOf(placements);
    var upperLeft := ComputeUpperLeft(ps);
    var lowerRight := ComputeLowerRight(ps);
    return Ok(Move(placements, upperLeft, lowerRight));
  }

  lemma IndexOf(ps: seq<Position>, p: Position) returns (i: nat)
    requires p in ps
    ensures i < |ps| && ps[i] == p
  {
    i :| 0 <= i < |ps| && ps[i] == p;
  }

  /** The corners are determined by the positions and their order. */
  lemma CornersUnique(ps: seq<Position>, p: Position, q: Position, p': Position, q': Position)
    requires Distinct(ps)
    requires IsUpperLeft(ps, p) && IsUpperLeft(ps, q)
    requires IsLowerRight(ps, p') && IsLowerRight(ps, q')
    ensures p == q && p' == q'
  {
    var i := IndexOf(ps, p);
    var j := IndexOf(ps, q);
    var i' := IndexOf(ps, p');
    var j' := IndexOf(ps, q');
  }

  /** The two corners coincide exactly when the move places a single tile. */
  lemma {:induction false} CornersCoincideIffSingle(m: Move)
    requires m.Valid()
    ensures m.upperLeft == m.lowerRight <==> |m.placements| == 1
  {
    var ps := m.Positions();
    if |ps| == 1 {
      assert ps[0] == m.upperLeft && ps[0] == m.lowerRight;
    } else {
      var k := IndexOf(ps, m.upperLeft);
      var other := if k == 0 then 1 else 0;
      assert Dist2(ps[other]) <= Dist2(m.lowerRight);
    }
  }

  /**
   * When every placement shares a row, the corners are the leftmost and the
   * rightmost placement, and every placement lies between them.
   */
  lemma CornersOfRow(m: Move)
    requires m.Valid() && SameRow(m.Positions())
    ensures m.upperLeft.row == m.lowerRight.row == m.Positions()[0].row
    ensures forall i :: 0 <= i < |m.placements| ==>
      m.upperLeft.col <= m.placements[i].position.col <= m.lowerRight.col
  {
    var ps := m.Positions();
    forall i | 0 <= i < |ps|
      ensures m.upperLeft.col <= ps[i].col <= m.lowerRight.col
    {
      Dist2AlongRow(m.upperLeft, ps[i]);
      Dist2AlongRow(ps[i], m.lowerRight);
    }
  }

  /**
   * When every placement shares a column, the corners are the topmost and the
   * bottom placement, and every placement lies between them.
   */
  lemma CornersOfCol(m: Move)
    requires m.Valid() && SameCol(m.Positions())
    ensures m.upperLeft.col == m.lowerRight.col == m.Positions()[0].col
    ensures forall i :: 0 <= i < |m.placements| ==>
      m.upperLeft.row <= m.placements[i].position.row <= m.lowerRight.row
  {
    var ps := m.Positions();
    forall i | 0 <= i < |ps|
      ensures m.upperLeft.row <= ps[i].row <= m.lowerRight.row
    {
      Dist2AlongCol(m.upperLeft, ps[i]);
      Dist2AlongCol(ps[i], m.lowerRight);
    }
  }

  /**
   * A move of two or more tiles laid along a row is ACROSS, and one laid along
   * a column is DOWN.
   */
  lemma OrientationOfLine(m: Move)
    requires m.Valid() && |m.placements| >= 2
    ensures SameRow(m.Positions()) ==> m.Orientation() == Horizontal
    ensures SameCol(m.Positions()) ==> m.Orientation() == Vertical
  {
    var ps := m.Positions();
    if SameCol(ps) {
      CornersOfCol(m);
      CornersCoincideIffSingle(m);
      assert m.upperLeft.col == m.lowerRight.col;
      Dist2AlongCol(m.upperLeft, m.lowerRight);
      var k := IndexOf(ps, m.upperLeft);
      var other := if k == 0 then 1 else 0;
      assert ps[other] != ps[k];
      assert ps[other].row != m.upperLeft.row;
    }
  }
}
