/**
 * What the default special tiles do when a move triggers them
 * (specialtile/defaults/NegativePointsSpecialTile.java,
 * StealScoreSpecialTile.java, BoomSpecialTile.java, ReverseSpecialTile.java).
 *
 * Each `performAction` asks the game for its last move and its current
 * player; here those two are parameters. The turn direction the reverse tile
 * flips is defined here for the game module to hold.
 */
module SpecialEffects {
  import opened Wrappers
  import opened Geometry
  import opened Players
  import opened PlayedWords
  import opened Squares
  import opened Moves
  import opened BoardStates
  import opened Boards
  import opened Scoring

  // ---------------------------------------------------------------------------
  // Turn direction (SWSGame.TurnDirection)
  // ---------------------------------------------------------------------------

  /** Clockwise advances the player index by one, counter-clockwise goes back by one. */
  datatype TurnDirection = CW | CCW

  /** `opposite()`: each direction's override names the other one. */
  function Opposite(d: TurnDirection): (e: TurnDirection)
    ensures e != d
  {
    match d
    case CW => CCW
    case CCW => CW
  }

  /** Reversing twice restores the direction. */
  lemma OppositeInvolution(d: TurnDirection)
    ensures Opposite(Opposite(d)) == d
  {
  }

  // ---------------------------------------------------------------------------
  // Loops over the words of the last move
  // ---------------------------------------------------------------------------

  /**
   * The scores a loop over `ws` has added up when it stops: all of them, or
   * those before the first null word, where `score()` throws.
   */
  function ScoreBeforeNull(ws: seq<Option<PlayedWord>>): int
  {
    if ws == [] || ws[0].None? then 0 else ws[0].value.score + ScoreBeforeNull(ws[1..])
  }

  /** With no null word, the loop adds up every score: the sum, not the last word's score. */
  lemma {:induction false} ScoreBeforeNullOfPresent(ws: seq<Option<PlayedWord>>)
    requires AllPresent(ws)
    ensures ScoreBeforeNull(ws) == SumOfScores(Present(ws))
  {
    if ws != [] {
      assert AllPresent(ws[1..]) by {
        forall i | 0 <= i < |ws[1..]| ensures ws[1..][i].Some? {
          assert ws[1..][i] == ws[i + 1];
        }
      }
      ScoreBeforeNullOfPresent(ws[1..]);
      assert Present(ws)[1..] == Present(ws[1..]);
    }
  }

  /** One step of the loop: a present word adds its score, a null word ends the tally. */
  lemma ScoreBeforeNullStep(ws: seq<Option<PlayedWord>>, i: nat)
    requires i < |ws|
    ensures ws[i].Some? ==> ScoreBeforeNull(ws[i..]) == ws[i].value.score + ScoreBeforeNull(ws[i + 1..])
    ensures ws[i].None? ==> ScoreBeforeNull(ws[i..]) == 0
  {
    assert ws[i..][1..] == ws[i + 1..];
  }

  /**
   * `NegativePointsSpecialTile.performAction`: for each word of the last
   * move, in order, the current player loses twice its score. A null last
   * move, or a null word, throws (the `assert` is off by default); the
   * scores taken before a null word stay taken. Nothing else changes.
   */
  method NegativePointsAction(board: Board, lastMove: Option<Move>, current: Player) returns (r: Result<()>)
    requires board.Keyed() && (lastMove.Some? ==> lastMove.value.Valid())
    modifies current`score
    ensures lastMove.None? ==> r == Err(NullPointer) && current.score == old(current.score)
    ensures lastMove.Some? && WordsOf(old(board.Snapshot()), lastMove.value).Err? ==>
      r == Err(WordsOf(old(board.Snapshot()), lastMove.value).fault) && current.score == old(current.score)
    ensures lastMove.Some? && WordsOf(old(board.Snapshot()), lastMove.value).Ok? ==>
      var ws := WordsOf(old(board.Snapshot()), lastMove.value).value;
      (r.Ok? <==> AllPresent(ws)) && (r.Err? ==> r.fault == NullPointer) &&
      current.score == old(current.score) - 2 * ScoreBeforeNull(ws)
    ensures current.letterTiles == old(current.letterTiles) && current.specialTiles == old(current.specialTiles)
  {
    if lastMove.None? {
      return Err(NullPointer);
    }
    var words :- Words(board, lastMove.value);
    r := NegateScores(words, current);
  }

  /** The loop of `NegativePointsSpecialTile.performAction` over the words, stopping at a null one. */
  method NegateScores(words: seq<Option<PlayedWord>>, current: Player) returns (r: Result<()>)
    modifies current`score
    ensures (r.Ok? <==> AllPresent(words)) && (r.Err? ==> r.fault == NullPointer)
    ensures current.score == old(current.score) - 2 * ScoreBeforeNull(words)
    ensures current.letterTiles == old(current.letterTiles) && current.specialTiles == old(current.specialTiles)
  {
    ghost var taken := 0;
    var i := 0;
    while i < |words|
      invariant 0 <= i <= |words|
      invariant forall k :: 0 <= k < i ==> words[k].Some?
      invariant ScoreBeforeNull(words) == taken + ScoreBeforeNull(words[i..])
      invariant current.score == old(current.score) - 2 * taken
      invariant current.letterTiles == old(current.letterTiles) && current.specialTiles == old(current.specialTiles)
    {
      ScoreBeforeNullStep(words, i);
      if words[i].None? {
        return Err(NullPointer);
      }
      current.SetScore(current.score - 2 * words[i].value.score);
      taken := taken + words[i].value.score;
      i := i + 1;
    }
    assert words[i..] == [];
    return Ok(());
  }

  /**
   * `StealScoreSpecialTile.performAction`: for each word of the last move,
   * in order, the current player loses its score and the tile's owner gains
   * it. When the owner is the current player the two updates cancel.
   */
  method StealScoreAction(board: Board, lastMove: Option<Move>, current: Player, owner: Player) returns (r: Result<()>)
    requires board.Keyed() && (lastMove.Some? ==> lastMove.value.Valid())
    modifies current`score, owner`score
    ensures lastMove.None? ==>
      r == Err(NullPointer) && current.score == old(current.score) && owner.score == old(owner.score)
    ensures lastMove.Some? && WordsOf(old(board.Snapshot()), lastMove.value).Err? ==>
      r == Err(WordsOf(old(board.Snapshot()), lastMove.value).fault) &&
      current.score == old(current.score) && owner.score == old(owner.score)
    ensures lastMove.Some? && WordsOf(old(board.Snapshot()), lastMove.value).Ok? ==>
      var ws := WordsOf(old(board.Snapshot()), lastMove.value).value;
      (r.Ok? <==> AllPresent(ws)) && (r.Err? ==> r.fault == NullPointer) &&
      (current != owner ==>
        current.score == old(current.score) - ScoreBeforeNull(ws) &&
        owner.score == old(owner.score) + ScoreBeforeNull(ws)) &&
      (current == owner ==> current.score == old(current.score))
    ensures current.score + owner.score == old(current.score) + old(owner.score) || current == owner
    ensures current.letterTiles == old(current.letterTiles) && current.specialTiles == old(current.specialTiles)
    ensures owner.letterTiles == old(owner.letterTiles) && owner.specialTiles == old(owner.specialTiles)
  {
    if lastMove.None? {
      return Err(NullPointer);
    }
    var words :- Words(board, lastMove.value);
    r := TransferScores(words, current, owner);
  }

  /** The loop of `StealScoreSpecialTile.performAction` over the words, stopping at a null one. */
  method TransferScores(words: seq<Option<PlayedWord>>, current: Player, owner: Player) returns (r: Result<()>)
    modifies current`score, owner`score
    ensures (r.Ok? <==> AllPresent(words)) && (r.Err? ==> r.fault == NullPointer)
    ensures current != owner ==>
      current.score == old(current.score) - ScoreBeforeNull(words) &&
      owner.score == old(owner.score) + ScoreBeforeNull(words)
    ensures current == owner ==> current.score == old(current.score)
    ensures current.letterTiles == old(current.letterTiles) && current.specialTiles == old(current.specialTiles)
    ensures owner.letterTiles == old(owner.letterTiles) && owner.specialTiles == old(owner.specialTiles)
  {
    ghost var taken := 0;
    var i := 0;
    while i < |words|
      invariant 0 <= i <= |words|
      invariant forall k :: 0 <= k < i ==> words[k].Some?
      invariant ScoreBeforeNull(words) == taken + ScoreBeforeNull(words[i..])
      invariant current != owner ==>
        current.score == old(current.score) - taken && owner.score == old(owner.score) + taken
      invariant current == owner ==> current.score == old(current.score)
      invariant current.letterTiles == old(current.letterTiles) && current.specialTiles == old(current.specialTiles)
      invariant owner.letterTiles == old(owner.letterTiles) && owner.specialTiles == old(owner.specialTiles)
    {
      ScoreBeforeNullStep(words, i);
      if words[i].None? {
        return Err(NullPointer);
      }
      var score := words[i].value.score;
      current.SetScore(current.score - score);
      owner.SetScore(owner.score + score);
      taken := taken + score;
      i := i + 1;
    }
    assert words[i..] == [];
    return Ok(());
  }

  // ---------------------------------------------------------------------------
  // Boom
  // ---------------------------------------------------------------------------

  /** `RADIUS`. */
  const Radius: nat := 3

  /** `Integer.max(x, 0)`. */
  function Max0(x: int): (m: nat)
    ensures m >= x && (m == 0 || m == x)
  {
    if x < 0 then 0 else x
  }

  /**
   * The boom's loops visit the rows from `max(row - 3, 0)` to `row + 3` and
   * the same columns: a square clamped at the top and left edges, not a
   * circle.
   */
  predicate InBlast(p: Position, q: Position)
  {
    Max0(p.row - Radius) <= q.row < p.row + Radius + 1 &&
    Max0(p.col - Radius) <= q.col < p.col + Radius + 1
  }

  /** The positions with a row in `[r0, r1)` and a column in `[c0, c1)`. */
  function Block(r0: nat, r1: nat, c0: nat, c1: nat): (s: set<Position>)
    ensures forall q :: q in s <==> r0 <= q.row < r1 && c0 <= q.col < c1
  {
    set r: nat, c: nat | r0 <= r < r1 && c0 <= c < c1 :: Position(r, c)
  }

  /** `removedPositions` once the loops are done. */
  function BlastSet(p: Position): (s: set<Position>)
    ensures forall q :: q in s <==> InBlast(p, q)
  {
    Block(Max0(p.row - Radius), p.row + Radius + 1, Max0(p.col - Radius), p.col + Radius + 1)
  }

  /** A square after `pickupLetterTile` and `pickupSpecialTiles`. */
  function Emptied(sq: ImmutableSquare): ImmutableSquare
  {
    sq.(letterTile := None, specialTiles := [])
  }

  /** The board with every square at a position of `s` emptied of letter and special tiles. */
  function ClearSet(b: BoardState, s: set<Position>): (c: BoardState)
    ensures c.width == b.width && c.height == b.height && c.squares.Keys == b.squares.Keys
    ensures forall q :: q in b.squares && q in s ==>
      c.squares[q].letterTile.None? && c.squares[q].specialTiles == [] &&
      c.squares[q].wordMultiplier == b.squares[q].wordMultiplier &&
      c.squares[q].letterMultiplier == b.squares[q].letterMultiplier
    ensures forall q :: q in b.squares && q !in s ==> c.squares[q] == b.squares[q]
  {
    b.(squares := map q | q in b.squares :: if q in s then Emptied(b.squares[q]) else b.squares[q])
  }

  /** Emptying one more square of the board is one more position in the set. */
  lemma ClearOne(b: BoardState, s: set<Position>, q: Position)
    requires q in b.squares
    ensures ClearSpecials(RemoveLetter(ClearSet(b, s), q), q) == ClearSet(b, s + {q})
  {
    var left := ClearSpecials(RemoveLetter(ClearSet(b, s), q), q);
    var right := ClearSet(b, s + {q});
    assert left.squares == right.squares;
  }

  /** A position off the board adds nothing to clear. */
  lemma ClearOffBoard(b: BoardState, s: set<Position>, q: Position)
    requires q !in b.squares
    ensures ClearSet(b, s + {q}) == ClearSet(b, s)
  {
    assert ClearSet(b, s + {q}).squares == ClearSet(b, s).squares;
  }

  /** Clearing two sets one after the other clears their union. */
  lemma ClearUnion(b: BoardState, s: set<Position>, t: set<Position>)
    ensures ClearSet(ClearSet(b, s), t) == ClearSet(b, s + t)
  {
    assert ClearSet(ClearSet(b, s), t).squares == ClearSet(b, s + t).squares;
  }

  /** The score of the word along `o` through `p` when `p` survived, 0 when it was blown up or the word is null. */
  function Chunk(b: BoardState, p: Position, o: Orientation, removed: set<Position>): Result<int>
    requires Grid(b)
  {
    if p in removed then Ok(0)
    else
      var w :- ContinuousWord(b, p, o);
      Ok(if w.Some? then w.value.score else 0)
  }

  /** The cross words at the surviving placements, summed in iteration order; the first exception wins. */
  function RescoreCross(b: BoardState, ps: seq<Position>, o: Orientation, removed: set<Position>): Result<int>
    requires Grid(b)
  {
    if ps == [] then Ok(0)
    else
      var first :- Chunk(b, ps[0], o, removed);
      var rest :- RescoreCross(b, ps[1..], o, removed);
      Ok(first + rest)
  }

  /** The two corner words along the move's orientation, the first exception winning. */
  function CornersOf(b: BoardState, m: Move, removed: set<Position>): Result<int>
    requires Grid(b)
  {
    var first :- Chunk(b, m.upperLeft, m.Orientation(), removed);
    var last :- Chunk(b, m.lowerRight, m.Orientation(), removed);
    Ok(first + last)
  }

  /**
   * `newScore`: the words along the move's orientation through its two
   * corners, and the cross words through its placements, each counted only
   * where the position survived the blast.
   */
  function NewScoreOf(b: BoardState, m: Move, removed: set<Position>): Result<int>
    requires Grid(b)
  {
    var corners :- CornersOf(b, m, removed);
    var crosses :- RescoreCross(b, m.Positions(), Across(m.Orientation()), removed);
    Ok(corners + crosses)
  }

  /** A result shifted by `s`, exceptions kept. */
  function Shift(r: Result<int>, s: int): Result<int>
  {
    if r.Ok? then Ok(r.value + s) else r
  }

  /** One step of the cross-word loop, with `sum` added up so far. */
  lemma RescoreCrossStep(b: BoardState, ps: seq<Position>, k: nat, o: Orientation, removed: set<Position>, sum: int)
    requires Grid(b) && k < |ps|
    ensures Chunk(b, ps[k], o, removed).Err? ==>
      Shift(RescoreCross(b, ps[k..], o, removed), sum) == Err(Chunk(b, ps[k], o, removed).fault)
    ensures Chunk(b, ps[k], o, removed).Ok? ==>
      Shift(RescoreCross(b, ps[k..], o, removed), sum) ==
      Shift(RescoreCross(b, ps[k + 1..], o, removed), sum + Chunk(b, ps[k], o, removed).value)
  {
    assert ps[k..][1..] == ps[k + 1..];
  }

  /** When every placement was blown up, the cross words add nothing and cannot throw. */
  lemma {:induction false} RescoreCrossAllRemoved(b: BoardState, ps: seq<Position>, o: Orientation, removed: set<Position>)
    requires Grid(b)
    requires forall i :: 0 <= i < |ps| ==> ps[i] in removed
    ensures RescoreCross(b, ps, o, removed) == Ok(0)
  {
    if ps != [] {
      RescoreCrossAllRemoved(b, ps[1..], o, removed);
    }
  }

  /** If both corners and every placement were blown up, the new score is 0: the player loses the original score. */
  lemma WipedOutMoveScoresZero(b: BoardState, m: Move, removed: set<Position>)
    requires Grid(b) && m.upperLeft in removed && m.lowerRight in removed
    requires forall i :: 0 <= i < |m.Positions()| ==> m.Positions()[i] in removed
    ensures NewScoreOf(b, m, removed) == Ok(0)
  {
    RescoreCrossAllRemoved(b, m.Positions(), Across(m.Orientation()), removed);
    assert CornersOf(b, m, removed) == Ok(0);
  }

  /** The body of the blast loops: a position on the board loses its letter tile and its special tiles. */
  method BlastSquare(board: Board, q: Position, ghost b0: BoardState, ghost done: set<Position>)
    requires board.Valid() && board.Snapshot() == ClearSet(b0, done)
    modifies board.squares.Values
    ensures board.Snapshot() == ClearSet(b0, done + {q})
  {
    if board.IsValidPosition(q) {
      var letter := board.PickupLetterTile(q);
      var specials := board.PickupSpecialTiles(q);
      ClearOne(b0, done, q);
    } else {
      ClearOffBoard(b0, done, q);
    }
  }

  /**
   * The inner blast loop over one row: every column from `startCol` to
   * `stopCol` is recorded as removed and, when on the board, emptied.
   */
  method BlastRow(board: Board, row: nat, startCol: nat, stopCol: nat, removed: set<Position>)
    returns (removed': set<Position>)
    requires board.Valid() && startCol <= stopCol
    modifies board.squares.Values
    ensures removed' == removed + Block(row, row + 1, startCol, stopCol)
    ensures board.Snapshot() == ClearSet(old(board.Snapshot()), Block(row, row + 1, startCol, stopCol))
  {
    ghost var b0 := board.Snapshot();
    removed' := removed;
    var col := startCol;
    while col < stopCol
      invariant startCol <= col <= stopCol
      invariant removed' == removed + Block(row, row + 1, startCol, col)
      invariant board.Snapshot() == ClearSet(b0, Block(row, row + 1, startCol, col))
    {
      var radialPosition := Position(row, col);
      ghost var done := Block(row, row + 1, startCol, col);
      BlastSquare(board, radialPosition, b0, done);
      assert Block(row, row + 1, startCol, col + 1) == done + {radialPosition};
      removed' := removed' + {radialPosition};
      col := col + 1;
    }
  }

  /**
   * The blast loops: every position of the clamped square around `position`
   * is recorded as removed, and each one on the board is emptied.
   */
  method Blast(board: Board, position: Position) returns (removed: set<Position>)
    requires board.Valid()
    modifies board.squares.Values
    ensures removed == BlastSet(position)
    ensures board.Snapshot() == ClearSet(old(board.Snapshot()), removed)
  {
    ghost var b0 := board.Snapshot();
    var startRow := Max0(position.row - Radius);
    var startCol := Max0(position.col - Radius);
    var stopRow := position.row + Radius + 1;
    var stopCol := position.col + Radius + 1;
    removed := {};
    var row := startRow;
    while row < stopRow
      invariant startRow <= row <= stopRow
      invariant removed == Block(startRow, row, startCol, stopCol)
      invariant board.Snapshot() == ClearSet(b0, removed)
    {
      ghost var before := board.Snapshot();
      var removed' := BlastRow(board, row, startCol, stopCol, removed);
      ClearUnion(b0, removed, Block(row, row + 1, startCol, stopCol));
      assert Block(startRow, row + 1, startCol, stopCol) == removed + Block(row, row + 1, startCol, stopCol);
      removed := removed';
      row := row + 1;
    }
  }

  /** One corner word of the rescoring: skipped when blown up, 0 when null. */
  method CornerScore(board: Board, p: Position, o: Orientation, removed: set<Position>) returns (r: Result<int>)
    requires board.Keyed()
    ensures r == Chunk(board.Snapshot(), p, o, removed)
  {
    if p in removed {
      return Ok(0);
    }
    var chunk :- WordIncluding(board, p, o);
    return Ok(if chunk.Some? then chunk.value.score else 0);
  }

  /** The cross-word loop of the rescoring, over the placements in order. */
  method CrossScores(board: Board, ps: seq<Position>, o: Orientation, removed: set<Position>) returns (r: Result<int>)
    requires board.Keyed()
    ensures r == RescoreCross(board.Snapshot(), ps, o, removed)
  {
    ghost var b := board.Snapshot();
    var sum := 0;
    var k := 0;
    while k < |ps|
      invariant 0 <= k <= |ps|
      invariant board.Snapshot() == b
      invariant RescoreCross(b, ps, o, removed) == Shift(RescoreCross(b, ps[k..], o, removed), sum)
    {
      RescoreCrossStep(b, ps, k, o, removed, sum);
      var score :- CornerScore(board, ps[k], o, removed);
      sum := sum + score;
      k := k + 1;
    }
    assert ps[k..] == [];
    return Ok(sum);
  }

  /** The first two statements of the rescoring. */
  method CornerScores(board: Board, m: Move, removed: set<Position>) returns (r: Result<int>)
    requires board.Keyed()
    ensures r == CornersOf(board.Snapshot(), m, removed)
  {
    ghost var b := board.Snapshot();
    var first :- CornerScore(board, m.upperLeft, m.Orientation(), removed);
    assert board.Snapshot() == b;
    var last :- CornerScore(board, m.lowerRight, m.Orientation(), removed);
    assert board.Snapshot() == b;
    return Ok(first + last);
  }

  /**
   * The rescoring after the blast, on the board as the blast left it: the
   * two corner words along the move's orientation, then the cross word at
   * each surviving placement.
   */
  method NewScore(board: Board, m: Move, removed: set<Position>) returns (r: Result<int>)
    requires board.Keyed()
    ensures r == NewScoreOf(board.Snapshot(), m, removed)
  {
    ghost var b := board.Snapshot();
    var corners :- CornerScores(board, m, removed);
    assert board.Snapshot() == b;
    var crosses :- CrossScores(board, m.Positions(), Across(m.Orientation()), removed);
    assert board.Snapshot() == b;
    return Ok(corners + crosses);
  }

  /**
   * `BoomSpecialTile.performAction`, triggered at `position`: takes the last
   * move's total score, blows up the clamped square of radius 3, rescoring
   * on what is left, and replaces the original score by the new one in the
   * current player's score. Only that player's score and the blasted
   * squares change.
   */
  method BoomAction(board: Board, lastMove: Option<Move>, position: Position, current: Player) returns (r: Result<()>)
    requires board.Valid() && (lastMove.Some? ==> lastMove.value.Valid())
    modifies board.squares.Values, current`score
    ensures lastMove.None? ==>
      r == Err(NullPointer) && board.Snapshot() == old(board.Snapshot()) && current.score == old(current.score)
    ensures lastMove.Some? && TotalScoreOf(old(board.Snapshot()), lastMove.value).Err? ==>
      r == Err(TotalScoreOf(old(board.Snapshot()), lastMove.value).fault) &&
      board.Snapshot() == old(board.Snapshot()) && current.score == old(current.score)
    ensures lastMove.Some? && TotalScoreOf(old(board.Snapshot()), lastMove.value).Ok? ==>
      board.Snapshot() == ClearSet(old(board.Snapshot()), BlastSet(position))
    ensures lastMove.Some? && TotalScoreOf(old(board.Snapshot()), lastMove.value).Ok? ==>
      var newScore := NewScoreOf(board.Snapshot(), lastMove.value, BlastSet(position));
      (newScore.Err? ==> r == Err(newScore.fault) && current.score == old(current.score)) &&
      (newScore.Ok? ==>
        r == Ok(()) &&
        current.score == old(current.score) - TotalScoreOf(old(board.Snapshot()), lastMove.value).value + newScore.value)
    ensures current.letterTiles == old(current.letterTiles) && current.specialTiles == old(current.specialTiles)
  {
    if lastMove.None? {
      return Err(NullPointer);
    }
    var move := lastMove.value;
    var originalScore :- TotalScore(board, move);
    var removed := Blast(board, position);
    r := Rescore(board, move, removed, originalScore, current);
  }

  /** The end of the boom: the new score on the blasted board replaces the original one. */
  method Rescore(board: Board, move: Move, removed: set<Position>, originalScore: int, current: Player) returns (r: Result<()>)
    requires board.Keyed()
    modifies current`score
    ensures board.Snapshot() == old(board.Snapshot())
    ensures var newScore := NewScoreOf(board.Snapshot(), move, removed);
      (newScore.Err? ==> r == Err(newScore.fault) && current.score == old(current.score)) &&
      (newScore.Ok? ==> r == Ok(()) && current.score == old(current.score) - originalScore + newScore.value)
    ensures current.letterTiles == old(current.letterTiles) && current.specialTiles == old(current.specialTiles)
  {
    var newScore :- NewScore(board, move, removed);
    current.SetScore(current.score - originalScore + newScore);
    return Ok(());
  }
}
