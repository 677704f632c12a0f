/**
 * The live board (board/Board.java): a fixed map from positions to the squares
 * it owns, whose letter and special tiles change in place. Every read-only
 * algorithm is proved to compute the function of module BoardStates on the
 * board's snapshot, and every change is stated as a change of that snapshot.
 */
module Boards {
  import opened Wrappers
  import opened Letters
  import opened Geometry
  import opened Players
  import opened Squares
  import opened PlayedWords
  import opened Moves
  import BoardStates

  /** A Java `int` size as a count of rows or columns: the loops of `blank` run zero times for a negative size. */
  function Span(n: int): nat
  {
    if n < 0 then 0 else n
  }

  // ---------------------------------------------------------------------------
  // Changes to a board snapshot
  // ---------------------------------------------------------------------------

  /** The snapshot with the letter at `q` removed. */
  function RemoveLetter(b: BoardStates.BoardState, q: Position): BoardStates.BoardState
    requires q in b.squares
  {
    b.(squares := b.squares[q := b.squares[q].(letterTile := None)])
  }

  /** The snapshot with special tile `s` appended at `q`. */
  function PutSpecial(b: BoardStates.BoardState, q: Position, s: SpecialTile): BoardStates.BoardState
    requires q in b.squares
  {
    b.(squares := b.squares[q := b.squares[q].(specialTiles := b.squares[q].specialTiles + [s])])
  }

  /** The snapshot with every special tile at `q` removed. */
  function ClearSpecials(b: BoardStates.BoardState, q: Position): BoardStates.BoardState
    requires q in b.squares
  {
    b.(squares := b.squares[q := b.squares[q].(specialTiles := [])])
  }

  /** A special tile of `owner` already lies at `q`. */
  predicate OwnerHasTileAt(b: BoardStates.BoardState, q: Position, owner: Player)
    requires q in b.squares
  {
    exists i :: 0 <= i < |b.squares[q].specialTiles| && b.squares[q].specialTiles[i].owner == owner
  }

  /** No square holds two special tiles of the same owner: what `placeSpecialTile` keeps true. */
  predicate OneTilePerOwner(b: BoardStates.BoardState)
  {
    forall q, i, j :: q in b.squares && 0 <= i < j < |b.squares[q].specialTiles| ==>
      b.squares[q].specialTiles[i].owner != b.squares[q].specialTiles[j].owner
  }

  /** Placing a letter on an empty square and picking it up again gives back the board. */
  lemma PickupUndoesPlace(b: BoardStates.BoardState, q: Position, t: LetterTile)
    requires q in b.squares && !BoardStates.HasLetterAt(b, q)
    ensures BoardStates.PutLetter(b, q, t).squares[q].letterTile == Some(t)
    ensures RemoveLetter(BoardStates.PutLetter(b, q, t), q) == b
  {
    var b' := RemoveLetter(BoardStates.PutLetter(b, q, t), q);
    assert b'.squares[q] == b.squares[q];
    assert b'.squares == b.squares;
  }

  /** A placement the board accepts keeps at most one special tile per owner on every square. */
  lemma {:induction false} PutSpecialKeepsOneTilePerOwner(b: BoardStates.BoardState, q: Position, s: SpecialTile)
    requires q in b.squares && OneTilePerOwner(b) && !OwnerHasTileAt(b, q, s.owner)
    ensures OneTilePerOwner(PutSpecial(b, q, s))
  {
    var b' := PutSpecial(b, q, s);
    forall q', i, j | q' in b'.squares && 0 <= i < j < |b'.squares[q'].specialTiles|
      ensures b'.squares[q'].specialTiles[i].owner != b'.squares[q'].specialTiles[j].owner
    {
      if q' == q && j == |b.squares[q].specialTiles| {
        assert b'.squares[q'].specialTiles[i] == b.squares[q].specialTiles[i];
      } else if q' == q {
        assert b'.squares[q'].specialTiles[i] == b.squares[q].specialTiles[i];
        assert b'.squares[q'].specialTiles[j] == b.squares[q].specialTiles[j];
      }
    }
  }

  /** The board object. */
  class Board {
    const width: int
    const height: int
    const squares: map<Position, SquareImpl>

    /**
     * What both factories establish: a square at exactly the positions of the
     * grid, and no square object shared between two positions.
     */
    ghost predicate Valid()
    {
      Keyed() && Unshared()
    }

    /** A square at exactly the positions of the grid. */
    ghost predicate Keyed()
    {
      forall p: Position :: p in squares <==> p.row < Span(height) && p.col < Span(width)
    }

    /** No square object serves two positions. */
    ghost predicate Unshared()
    {
      forall p {:trigger SoleHolder(p)} :: p in squares ==> SoleHolder(p)
    }

    /** No other position holds the square object at `p`. */
    ghost predicate SoleHolder(p: Position)
      requires p in squares
    {
      forall q :: q in squares && q != p ==> squares[q] != squares[p]
    }

    /** The package-private constructor: takes the map as given. */
    constructor (width: int, height: int, squares: map<Position, SquareImpl>)
      ensures this.width == width && this.height == height && this.squares == squares
    {
      this.width := width;
      this.height := height;
      this.squares := squares;
    }

    /** The board's present contents as a value. */
    function Snapshot(): (s: BoardStates.BoardState)
      reads this, squares.Values
      ensures s.width == Span(width) && s.height == Span(height)
      ensures s.squares.Keys == squares.Keys
      ensures forall p :: p in squares ==> s.squares[p] == squares[p].View()
      ensures Keyed() ==> BoardStates.Grid(s)
    {
      BoardStates.BoardState(Span(width), Span(height), map p | p in squares :: squares[p].View())
    }

    /** `isValidPosition`: the position has a square, which on a valid board means it lies inside the grid. */
    predicate IsValidPosition(p: Position)
      requires Keyed()
      ensures IsValidPosition(p) <==> p.row < Span(height) && p.col < Span(width)
    {
      p in squares
    }

    /** `nextPosition`: the neighbour in direction `d` if it is on the board, else null. */
    function NextPosition(p: Position, d: Direction): (r: Result<Option<Position>>)
      reads this, squares.Values
      ensures r == BoardStates.NextPosition(Snapshot(), p, d)
    {
      var q :- Adjacent(d, p);
      if q.Some? && q.value in squares then Ok(q) else Ok(None)
    }

    /**
     * `getContinuousWord` along orientation `o`: an off-board position
     * dereferences null and an empty square throws; otherwise walk back to
     * the first letter of the run, then forward.
     */
    method GetContinuousWord(p: Position, o: Orientation) returns (r: Result<Option<PlayedWord>>)
      requires Keyed()
      ensures r == BoardStates.ContinuousWord(Snapshot(), p, o)
    {
      if p !in squares {
        return Err(NullPointer);
      }
      if !squares[p].HasLetterTile() {
        return Err(IllegalArgument("No tile exists at given position."));
      }
      var start :- RunStart(p, o);
      var word := WordFrom(start, o);
      return Ok(word);
    }

    /** The first loop of getContinuousWord: back along the line while the previous square has a letter. */
    method RunStart(p: Position, o: Orientation) returns (r: Result<Position>)
      requires Keyed() && BoardStates.HasLetterAt(Snapshot(), p)
      ensures r == BoardStates.RunStart(Snapshot(), p, o)
    {
      ghost var b := Snapshot();
      var start := p;
      var next :- NextPosition(start, Backwards(o));
      while next.Some? && squares[next.value].HasLetterTile()
        invariant BoardStates.HasLetterAt(b, start)
        invariant BoardStates.RunStart(b, p, o) == BoardStates.RunStart(b, start, o)
        invariant BoardStates.NextPosition(b, start, Backwards(o)) == Ok(next)
        decreases Along(start, o)
      {
        AdjacentBackwards(start, o);
        start := next.value;
        next :- NextPosition(start, Backwards(o));
      }
      return Ok(start);
    }

    /**
     * The second loop of getContinuousWord: forward from the first letter,
     * collecting letters, their multiplied points and the word multipliers;
     * a single letter is no word.
     */
    method WordFrom(start: Position, o: Orientation) returns (word: Option<PlayedWord>)
      requires Keyed() && BoardStates.HasLetterAt(Snapshot(), start)
      ensures BoardStates.AllLettered(Snapshot(), BoardStates.RunFrom(Snapshot(), start, o))
      ensures word == BoardStates.WordOf(Snapshot(), BoardStates.RunFrom(Snapshot(), start, o))
    {
      ghost var b := Snapshot();
      var startSquare := squares[start];
      var letters := [startSquare.letterTile.value.letter];
      var sum := startSquare.letterTile.value.points * LetterMultiplier(startSquare.kind);
      var product := WordMultiplier(startSquare.kind);
      ghost var cur := start;
      assert startSquare.View() == b.squares[start];
      AdjacentForwards(start, o);
      var next := NextPosition(start, Forwards(o)).value;
      while next.Some? && squares[next.value].HasLetterTile()
        invariant cur in b.squares && next == BoardStates.Successor(b, cur, o)
        invariant BoardStates.Collected(b, start, o, cur, letters, sum, product)
        decreases BoardStates.Extent(b, o) - Along(cur, o)
      {
        var here := next.value;
        var nextSquare := squares[here];
        assert nextSquare.View() == b.squares[here];
        var nextLetterTile := nextSquare.letterTile.value;
        assert BoardStates.LetterValue(b, here) == nextLetterTile.points * LetterMultiplier(nextSquare.kind);
        BoardStates.ForwardRound(b, start, o, cur, letters, sum, product);
        BoardStates.RunFromStep(b, here, o);
        var multiplier := WordMultiplier(nextSquare.kind);
        letters := letters + [nextLetterTile.letter];
        cur := here;
        next := NextPosition(here, Forwards(o)).value;
        sum := sum + nextLetterTile.points * LetterMultiplier(nextSquare.kind);
        product := product * multiplier;
      }
      assert !BoardStates.LetterFollows(b, cur, o) by {
        if next.Some? {
          assert squares[next.value].View() == b.squares[next.value];
        }
      }
      BoardStates.ForwardDone(b, start, o, cur, letters, sum, product);
      word := if |letters| > 1 then Some(PlayedWord(letters, sum * product)) else None;
    }

    /** `horizontalWordIncluding`: the word through `p` along its row. */
    method HorizontalWordIncluding(p: Position) returns (r: Result<Option<PlayedWord>>)
      requires Keyed()
      ensures r == BoardStates.ContinuousWord(Snapshot(), p, Horizontal)
    {
      r := GetContinuousWord(p, Horizontal);
    }

    /** `verticalWordIncluding`: the word through `p` along its column. */
    method VerticalWordIncluding(p: Position) returns (r: Result<Option<PlayedWord>>)
      requires Keyed()
      ensures r == BoardStates.ContinuousWord(Snapshot(), p, Vertical)
    {
      r := GetContinuousWord(p, Vertical);
    }

    /** `hasAdjacentLetter`: UP, DOWN, RIGHT, LEFT in turn, stopping at the first neighbour with a letter. */
    method HasAdjacentLetter(p: Position) returns (r: Result<bool>)
      ensures r == BoardStates.HasAdjacentLetter(Snapshot(), p)
    {
      ghost var b := Snapshot();
      var ds := AllDirections;
      var i := 0;
      while i < |ds|
        invariant 0 <= i <= |ds|
        invariant BoardStates.AdjacentLetterFrom(b, p, ds) == BoardStates.AdjacentLetterFrom(b, p, ds[i..])
      {
        assert ds[i..][1..] == ds[i + 1..];
        var next :- NextPosition(p, ds[i]);
        if next.Some? && squares[next.value].HasLetterTile() {
          return Ok(true);
        }
        i := i + 1;
      }
      return Ok(false);
    }

    /**
     * `isValidMove`. The square after the lower-right corner is looked up
     * first; when it is off the board, the loop's first test
     * `position.equals(stopPosition)` dereferences null.
     */
    method IsValidMove(player: Player, m: Move, isFirstMove: bool) returns (r: Result<bool>)
      requires Keyed() && m.Valid()
      ensures r == BoardStates.IsValidMove(Snapshot(), player.letterTiles, m, isFirstMove)
    {
      ghost var b := Snapshot();
      var ps := m.Positions();
      if !(forall t :: t in m.Tiles() ==> t in player.letterTiles) {
        return Ok(false);
      }
      var rowsAllEqual := RowsAllEqual(ps);
      var colsAllEqual := ColsAllEqual(ps);
      if !(rowsAllEqual || colsAllEqual) {
        return Ok(false);
      }
      var o := if rowsAllEqual then Horizontal else Vertical;
      r := OnLine(m, o, isFirstMove);
    }

    /** The rest of isValidMove, once the placements lie along orientation `o`. */
    method OnLine(m: Move, o: Orientation, isFirstMove: bool) returns (r: Result<bool>)
      requires Keyed()
      ensures r == BoardStates.MoveOnLine(Snapshot(), m, o, isFirstMove)
    {
      AdjacentForwards(m.lowerRight, o);
      var stop := NextPosition(m.lowerRight, Forwards(o)).value;
      if stop.None? {
        return Err(NullPointer);
      }
      var contiguous :- Contiguous(m.upperLeft, stop.value, o, m.Positions());
      if !contiguous {
        return Ok(false);
      }
      r := Anchored(m, isFirstMove);
    }

    /**
     * The contiguity loop of isValidMove: from `start` up to `stop`, every
     * square must hold a letter or be a placement.
     */
    method Contiguous(start: Position, stop: Position, o: Orientation, ps: seq<Position>) returns (r: Result<bool>)
      requires Keyed()
      ensures r == BoardStates.Walk(Snapshot(), start, stop, o, ps)
    {
      ghost var b := Snapshot();
      var position := Some(start);
      while position.Some? && position.value != stop
        invariant BoardStates.Walk(b, start, stop, o, ps)
          == if position.Some? then BoardStates.Walk(b, position.value, stop, o, ps) else Ok(true)
        decreases if position.None? then 0
          else if position.value in squares then BoardStates.Extent(b, o) + 2 - Along(position.value, o)
          else 1
      {
        if position.value !in squares {
          return Err(NullPointer);
        }
        if !(squares[position.value].HasLetterTile() || position.value in ps) {
          return Ok(false);
        }
        BoardStates.WalkStep(b, position.value, stop, o, ps);
        position := NextPosition(position.value, Forwards(o)).value;
      }
      return Ok(true);
    }

    /** The last test of isValidMove, with its two calls of hasAdjacentLetter. */
    method Anchored(m: Move, isFirstMove: bool) returns (r: Result<bool>)
      ensures r == BoardStates.Anchored(Snapshot(), m, isFirstMove)
    {
      if isFirstMove {
        return Ok(m.upperLeft != m.lowerRight);
      }
      var nearUpperLeft :- HasAdjacentLetter(m.upperLeft);
      if nearUpperLeft {
        return Ok(true);
      }
      r := HasAdjacentLetter(m.lowerRight);
    }

    /** `placeLetterTile`: only onto an empty square of the board. */
    method PlaceLetterTile(p: Position, t: LetterTile) returns (r: Result<()>)
      requires Valid()
      modifies squares.Values
      ensures r.Err? <==> p !in old(Snapshot()).squares || BoardStates.HasLetterAt(old(Snapshot()), p)
      ensures r.Err? ==> r.fault == IllegalArgument("Invalid tile placement") && Snapshot() == old(Snapshot())
      ensures r.Ok? ==> Snapshot() == BoardStates.PutLetter(old(Snapshot()), p, t)
    {
      if !IsValidPosition(p) || squares[p].HasLetterTile() {
        return Err(IllegalArgument("Invalid tile placement"));
      }
      ghost var before := Snapshot();
      assert SoleHolder(p);
      var square := squares[p];
      square.PlaceLetterTile(t);
      assert Snapshot().squares == BoardStates.PutLetter(before, p, t).squares;
      return Ok(());
    }

    /**
     * `placeSpecialTile`: only onto an empty square of the board, and only
     * where the owner has no special tile yet.
     */
    method PlaceSpecialTile(p: Position, s: SpecialTile) returns (r: Result<()>)
      requires Valid()
      modifies squares.Values
      ensures r == if p !in old(Snapshot()).squares || BoardStates.HasLetterAt(old(Snapshot()), p) then
          Err(IllegalArgument("Invalid tile placement"))
        else if OwnerHasTileAt(old(Snapshot()), p, s.owner) then
          Err(IllegalArgument("Cannot combine special tiles."))
        else Ok(())
      ensures r.Err? ==> Snapshot() == old(Snapshot())
      ensures r.Ok? ==> Snapshot() == PutSpecial(old(Snapshot()), p, s)
    {
      if !IsValidPosition(p) || squares[p].HasLetterTile() {
        return Err(IllegalArgument("Invalid tile placement"));
      }
      var existing := squares[p].specialTiles;
      var i := 0;
      while i < |existing|
        invariant 0 <= i <= |existing|
        invariant forall k :: 0 <= k < i ==> existing[k].owner != s.owner
      {
        if existing[i].owner == s.owner {
          return Err(IllegalArgument("Cannot combine special tiles."));
        }
        i := i + 1;
      }
      ghost var before := Snapshot();
      assert SoleHolder(p);
      var square := squares[p];
      square.PlaceSpecialTile(s);
      assert Snapshot().squares == PutSpecial(before, p, s).squares;
      return Ok(());
    }

    /** `pickupLetterTile`: empties the square and returns what it held, possibly null. */
    method PickupLetterTile(p: Position) returns (r: Result<Option<LetterTile>>)
      requires Valid()
      modifies squares.Values
      ensures r.Err? <==> p !in old(Snapshot()).squares
      ensures r.Err? ==> r.fault == IllegalArgument("Invalid tile placement") && Snapshot() == old(Snapshot())
      ensures r.Ok? ==> r.value == old(Snapshot()).squares[p].letterTile
      ensures r.Ok? ==> Snapshot() == RemoveLetter(old(Snapshot()), p)
    {
      if !IsValidPosition(p) {
        return Err(IllegalArgument("Invalid tile placement"));
      }
      ghost var before := Snapshot();
      assert SoleHolder(p);
      var square := squares[p];
      var removed := square.RemoveLetterTile();
      assert Snapshot().squares == RemoveLetter(before, p).squares;
      return Ok(removed);
    }

    /** `pickupSpecialTiles`: returns the square's special tiles in order and clears them. */
    method PickupSpecialTiles(p: Position) returns (r: Result<seq<SpecialTile>>)
      requires Valid()
      modifies squares.Values
      ensures r.Err? <==> p !in old(Snapshot()).squares
      ensures r.Err? ==> r.fault == IllegalArgument("Invalid position argument.") && Snapshot() == old(Snapshot())
      ensures r.Ok? ==> r.value == old(Snapshot()).squares[p].specialTiles
      ensures r.Ok? ==> Snapshot() == ClearSpecials(old(Snapshot()), p)
    {
      if !IsValidPosition(p) {
        return Err(IllegalArgument("Invalid position argument."));
      }
      ghost var before := Snapshot();
      assert SoleHolder(p);
      var square := squares[p];
      var specialTiles := square.specialTiles;
      square.ClearSpecialTiles();
      assert Snapshot().squares == ClearSpecials(before, p).squares;
      return Ok(specialTiles);
    }

    /** `getLetterTile`: the letter on a square of the board, or null; off the board it throws. */
    function GetLetterTile(p: Position): (r: Result<Option<LetterTile>>)
      reads this, squares.Values
      ensures r.Err? <==> p !in Snapshot().squares
      ensures r.Ok? ==> (r.value.Some? <==> BoardStates.HasLetterAt(Snapshot(), p))
      ensures r.Ok? ==> r.value == Snapshot().squares[p].letterTile
    {
      if p !in squares then Err(IllegalArgument("Invalid position argument."))
      else Ok(squares[p].letterTile)
    }

    /** `viewOfSquare`: a read-only copy of a square of the board; off the board it throws. */
    function ViewOfSquare(p: Position): (r: Result<ImmutableSquare>)
      reads this, squares.Values
      ensures r.Err? <==> p !in Snapshot().squares
      ensures r.Ok? ==> r.value == Snapshot().squares[p]
    {
      if p !in squares then Err(IllegalArgument("Invalid position argument."))
      else Ok(squares[p].View())
    }
  }

  /** An empty square of kind `k`, as seen through a snapshot. */
  function EmptyOf(k: SquareKind): ImmutableSquare
  {
    ImmutableSquare(WordMultiplier(k), LetterMultiplier(k), None, [])
  }

  /**
   * `Board.blank`: a fresh standard square at every position of the grid, so
   * the board is valid and every square is empty with both multipliers 1.
   */
  method Blank(width: int, height: int) returns (board: Board)
    ensures fresh(board) && board.Valid()
    ensures board.width == width && board.height == height
    ensures forall p :: p in board.squares <==> p.row < Span(height) && p.col < Span(width)
    ensures forall p :: p in board.squares ==> fresh(board.squares[p])
    ensures forall p :: p in board.squares ==> board.Snapshot().squares[p] == ImmutableSquare(1, 1, None, [])
  {
    board := Fill(width, height, _ => Standard);
  }

  /** The state `Fill` builds: an empty square of kind `kindOf(p)` at every position of the grid. */
  ghost function FilledState(width: nat, height: nat, kindOf: Position -> SquareKind): (b: BoardStates.BoardState)
    ensures BoardStates.Grid(b) && OneTilePerOwner(b)
    ensures b.width == width && b.height == height
    ensures forall p :: p in b.squares ==> b.squares[p] == EmptyOf(kindOf(p))
  {
    var g := set r: nat, c: nat | r < height && c < width :: Position(r, c);
    assert forall p: Position :: p in g <==> p.row < height && p.col < width by {
      forall p: Position | p.row < height && p.col < width ensures p in g {
        assert p == Position(p.row, p.col);
      }
    }
    BoardStates.BoardState(width, height, map p | p in g :: EmptyOf(kindOf(p)))
  }

  /** The inner loop of `Fill`: a fresh square of kind `kindOf(p)` at every column of row `r`, added to `squares`. */
  method FillRow(squares: map<Position, SquareImpl>, r: int, width: int, kindOf: Position -> SquareKind)
    returns (filled: map<Position, SquareImpl>)
    requires 0 <= r && forall p :: p in squares ==> p.row < r
    requires forall p :: p in squares ==> squares[p].View() == EmptyOf(kindOf(p))
    requires forall p, q :: p in squares && q in squares && p != q ==> squares[p] != squares[q]
    ensures forall p: Position :: p in filled <==> p in squares || (p.row == r && p.col < Span(width))
    ensures forall p :: p in filled ==> (p in squares && filled[p] == squares[p]) || fresh(filled[p])
    ensures forall p :: p in filled ==> filled[p].View() == EmptyOf(kindOf(p))
    ensures forall p, q :: p in filled && q in filled && p != q ==> filled[p] != filled[q]
  {
    filled := squares;
    var c := 0;
    while c < width
      invariant 0 <= c <= Span(width)
      invariant forall p: Position :: p in filled <==> p in squares || (p.row == r && p.col < c)
      invariant forall p :: p in filled ==> (p in squares && filled[p] == squares[p]) || fresh(filled[p])
      invariant forall p :: p in filled ==> filled[p].View() == EmptyOf(kindOf(p))
      invariant forall p, q :: p in filled && q in filled && p != q ==> filled[p] != filled[q]
    {
      var position := Position(r, c);
      var square := new SquareImpl(kindOf(position));
      filled := filled[position := square];
      c := c + 1;
    }
  }

  /**
   * The nested loop shared by `Board.blank` and `DefaultBoard.create`: one
   * fresh square of kind `kindOf(p)` at every position `p` of the grid, row
   * by row.
   */
  method Fill(width: int, height: int, kindOf: Position -> SquareKind) returns (board: Board)
    ensures fresh(board) && board.Valid()
    ensures board.width == width && board.height == height
    ensures forall p :: p in board.squares <==> p.row < Span(height) && p.col < Span(width)
    ensures forall p :: p in board.squares ==> fresh(board.squares[p])
    ensures board.Snapshot() == FilledState(Span(width), Span(height), kindOf)
  {
    var squareMap: map<Position, SquareImpl> := map[];
    var r := 0;
    while r < height
      invariant 0 <= r <= Span(height)
      invariant forall p: Position :: p in squareMap <==> p.row < r && p.col < Span(width)
      invariant forall p :: p in squareMap ==> fresh(squareMap[p])
      invariant forall p :: p in squareMap ==> squareMap[p].View() == EmptyOf(kindOf(p))
      invariant forall p, q :: p in squareMap && q in squareMap && p != q ==> squareMap[p] != squareMap[q]
    {
      squareMap := FillRow(squareMap, r, width, kindOf);
      r := r + 1;
    }
    board := new Board(width, height, squareMap);
    assert board.Snapshot().squares == FilledState(Span(width), Span(height), kindOf).squares;
  }
}
