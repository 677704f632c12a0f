/** The standard 15 by 15 layout of score squares (board/DefaultBoard.java). */
module DefaultBoards {
  import opened Wrappers
  import opened Geometry
  import opened Squares
  import opened Boards

  const Width: int := 15
  const Height: int := 15

  /** The positions `doubleLetterPositions` adds, listed in row order. */
  function DoubleLetterList(): seq<Position>
  {
    [
      Position(0, 3), Position(0, 11), Position(2, 6), Position(2, 8), Position(3, 0),
      Position(3, 7), Position(3, 14), Position(6, 2), Position(6, 6), Position(6, 8),
      Position(6, 12), Position(7, 3), Position(7, 11), Position(8, 2), Position(8, 6),
      Position(8, 8), Position(8, 12), Position(11, 0), Position(11, 7), Position(11, 14),
      Position(12, 6), Position(12, 8), Position(14, 3), Position(14, 11)
    ]
  }

  /** The set `doubleLetterPositions` returns. */
  function DoubleLetterPositions(): set<Position>
  {
    set p | p in DoubleLetterList()
  }

  /** The positions `tripleLetterPositions` adds, listed in row order. */
  function TripleLetterList(): seq<Position>
  {
    [
      Position(1, 5), Position(1, 9), Position(5, 1), Position(5, 5), Position(5, 9),
      Position(5, 13), Position(9, 1), Position(9, 5), Position(9, 9), Position(9, 13),
      Position(13, 5), Position(13, 9)
    ]
  }

  /** The set `tripleLetterPositions` returns. */
  function TripleLetterPositions(): set<Position>
  {
    set p | p in TripleLetterList()
  }

  /** The positions `doubleWordPositions` adds, listed in row order. */
  function DoubleWordList(): seq<Position>
  {
    [
      Position(1, 1), Position(1, 13), Position(2, 2), Position(2, 12), Position(3, 3),
      Position(3, 11), Position(4, 4), Position(4, 10), Position(7, 7), Position(10, 4),
      Position(10, 10), Position(11, 3), Position(11, 11), Position(12, 2), Position(12, 12),
      Position(13, 1), Position(13, 13)
    ]
  }

  /** The set `doubleWordPositions` returns. */
  function DoubleWordPositions(): set<Position>
  {
    set p | p in DoubleWordList()
  }

  /** The positions `tripleWordPositions` adds, listed in row order. */
  function TripleWordList(): seq<Position>
  {
    [
      Position(0, 0), Position(0, 7), Position(0, 14), Position(7, 0), Position(7, 14),
      Position(14, 0), Position(14, 7), Position(14, 14)
    ]
  }

  /** The set `tripleWordPositions` returns. */
  function TripleWordPositions(): set<Position>
  {
    set p | p in TripleWordList()
  }

  /** The kind of square `create` puts at `p`, testing the four sets in the source's order. */
  function KindAt(p: Position): SquareKind
  {
    if p in DoubleLetterPositions() then DoubleLetter
    else if p in TripleLetterPositions() then TripleLetter
    else if p in DoubleWordPositions() then DoubleWord
    else if p in TripleWordPositions() then TripleWord
    else Standard
  }

  /**
   * The four sets are pairwise disjoint, so the order of the tests in `create`
   * never decides a square's kind: each kind is exactly membership in its set.
   */
  lemma KindAtIsMembership(p: Position)
    ensures KindAt(p) == DoubleLetter <==> p in DoubleLetterPositions()
    ensures KindAt(p) == TripleLetter <==> p in TripleLetterPositions()
    ensures KindAt(p) == DoubleWord <==> p in DoubleWordPositions()
    ensures KindAt(p) == TripleWord <==> p in TripleWordPositions()
    ensures KindAt(p) == Standard <==>
      p !in DoubleLetterPositions() + TripleLetterPositions() + DoubleWordPositions() + TripleWordPositions()
  {
    LayoutDisjoint();
  }

  /** No position is in two of the four sets. */
  lemma LayoutDisjoint()
    ensures DoubleLetterPositions() !! TripleLetterPositions()
    ensures DoubleLetterPositions() !! DoubleWordPositions()
    ensures DoubleLetterPositions() !! TripleWordPositions()
    ensures TripleLetterPositions() !! DoubleWordPositions()
    ensures TripleLetterPositions() !! TripleWordPositions()
    ensures DoubleWordPositions() !! TripleWordPositions()
  {
    DoubleLetterApartTripleLetter();
    DoubleLetterApartDoubleWord();
    DoubleLetterApartTripleWord();
    TripleLetterApartDoubleWord();
    TripleLetterApartTripleWord();
    DoubleWordApartTripleWord();
  }

  lemma DoubleLetterApartTripleLetter()
    ensures DoubleLetterPositions() !! TripleLetterPositions()
  {
  }

  lemma DoubleLetterApartDoubleWord()
    ensures DoubleLetterPositions() !! DoubleWordPositions()
  {
  }

  lemma DoubleLetterApartTripleWord()
    ensures DoubleLetterPositions() !! TripleWordPositions()
  {
  }

  lemma TripleLetterApartDoubleWord()
    ensures TripleLetterPositions() !! DoubleWordPositions()
  {
  }

  lemma TripleLetterApartTripleWord()
    ensures TripleLetterPositions() !! TripleWordPositions()
  {
  }

  lemma DoubleWordApartTripleWord()
    ensures DoubleWordPositions() !! TripleWordPositions()
  {
  }

  /** Strictly increasing hash codes along the list, which rules out repeats. */
  predicate Ascending(ps: seq<Position>)
  {
    forall i :: 0 <= i < |ps| - 1 ==> HashCode(ps[i]) < HashCode(ps[i + 1])
  }

  /** In an ascending list, the first position hashes below every later one. */
  lemma {:induction false} AscendingFirstLeast(ps: seq<Position>, k: nat)
    requires Ascending(ps) && 0 < k < |ps|
    ensures HashCode(ps[0]) < HashCode(ps[k])
    decreases k
  {
    if k > 1 {
      AscendingFirstLeast(ps, k - 1);
    }
  }

  /** An ascending list holds as many distinct positions as it has entries. */
  lemma {:induction false} AscendingCard(ps: seq<Position>)
    requires Ascending(ps)
    ensures |set p | p in ps| == |ps|
  {
    if ps != [] {
      var rest := ps[1..];
      assert Ascending(rest) by {
        forall i | 0 <= i < |rest| - 1 ensures HashCode(rest[i]) < HashCode(rest[i + 1]) {
          assert rest[i] == ps[i + 1] && rest[i + 1] == ps[i + 2];
        }
      }
      AscendingCard(rest);
      assert ps[0] !in rest by {
        forall k | 0 <= k < |rest| ensures rest[k] != ps[0] {
          AscendingFirstLeast(ps, k + 1);
        }
      }
      assert (set p | p in ps) == {ps[0]} + (set p | p in rest) by {
        assert ps == [ps[0]] + rest;
      }
    }
  }

  /** Every position of the list lies on the 15 by 15 grid. */
  predicate OnGrid(ps: seq<Position>)
  {
    forall i :: 0 <= i < |ps| ==> ps[i].row < Height && ps[i].col < Width
  }

  /** The double-letter list is in row order. */
  lemma DoubleLetterListAscending()
    ensures Ascending(DoubleLetterList())
  {
  }

  /** The double-letter list lies on the grid. */
  lemma DoubleLetterListOnGrid()
    ensures OnGrid(DoubleLetterList())
  {
  }

  /** There are 24 double-letter squares, all on the 15 by 15 grid. */
  lemma DoubleLetterLayout()
    ensures |DoubleLetterPositions()| == 24
    ensures forall p :: p in DoubleLetterPositions() ==> p.row < Height && p.col < Width
  {
    DoubleLetterListAscending();
    DoubleLetterListOnGrid();
    AscendingCard(DoubleLetterList());
  }

  /** The triple-letter list is in row order. */
  lemma TripleLetterListAscending()
    ensures Ascending(TripleLetterList())
  {
  }

  /** The triple-letter list lies on the grid. */
  lemma TripleLetterListOnGrid()
    ensures OnGrid(TripleLetterList())
  {
  }

  /** There are 12 triple-letter squares, all on the 15 by 15 grid. */
  lemma TripleLetterLayout()
    ensures |TripleLetterPositions()| == 12
    ensures forall p :: p in TripleLetterPositions() ==> p.row < Height && p.col < Width
  {
    TripleLetterListAscending();
    TripleLetterListOnGrid();
    AscendingCard(TripleLetterList());
  }

  /** The double-word list is in row order. */
  lemma DoubleWordListAscending()
    ensures Ascending(DoubleWordList())
  {
  }

  /** The double-word list lies on the grid. */
  lemma DoubleWordListOnGrid()
    ensures OnGrid(DoubleWordList())
  {
  }

  /** There are 17 double-word squares, all on the 15 by 15 grid. */
  lemma DoubleWordLayout()
    ensures |DoubleWordPositions()| == 17
    ensures forall p :: p in DoubleWordPositions() ==> p.row < Height && p.col < Width
  {
    DoubleWordListAscending();
    DoubleWordListOnGrid();
    AscendingCard(DoubleWordList());
  }

  /** The triple-word list is in row order. */
  lemma TripleWordListAscending()
    ensures Ascending(TripleWordList())
  {
  }

  /** The triple-word list lies on the grid. */
  lemma TripleWordListOnGrid()
    ensures OnGrid(TripleWordList())
  {
  }

  /** There are 8 triple-word squares, all on the 15 by 15 grid. */
  lemma TripleWordLayout()
    ensures |TripleWordPositions()| == 8
    ensures forall p :: p in TripleWordPositions() ==> p.row < Height && p.col < Width
  {
    TripleWordListAscending();
    TripleWordListOnGrid();
    AscendingCard(TripleWordList());
  }

  /** The centre square, which the first move must cover, doubles the word. */
  lemma CentreDoublesWord()
    ensures KindAt(Position(7, 7)) == DoubleWord
    ensures WordMultiplier(KindAt(Position(7, 7))) == 2
  {
  }

  /**
   * `create`: a 15 by 15 board holding a fresh, empty square of kind
   * `KindAt(p)` at every position of the grid and at no other key.
   */
  method Create() returns (board: Board)
    ensures fresh(board) && board.Valid()
    ensures board.width == Width && board.height == Height
    ensures forall p :: p in board.squares ==> fresh(board.squares[p])
    ensures board.Snapshot() == FilledState(Width, Height, KindAt)
  {
    board := Fill(Width, Height, KindAt);
  }

}
