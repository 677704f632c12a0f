/**
 * Board squares: the mutable square the board owns (board/square/SquareImpl.java
 * and its four multiplier subclasses) and the read-only copy handed to clients
 * (board/square/ImmutableSquare.java).
 */
module Squares {
  import opened Wrappers
  import opened Letters
  import opened Players

  /** Which subclass of SquareImpl a square is. */
  datatype SquareKind = Standard | DoubleLetter | TripleLetter | DoubleWord | TripleWord

  /** The multiplier applied to the whole word through this square. */
  function WordMultiplier(k: SquareKind): int
  {
    match k
    case DoubleWord => 2
    case TripleWord => 3
    case _ => 1
  }

  /** The multiplier applied to the letter on this square. */
  function LetterMultiplier(k: SquareKind): int
  {
    match k
    case DoubleLetter => 2
    case TripleLetter => 3
    case _ => 1
  }

  /**
   * Every kind is told apart by its multipliers, no kind multiplies both the
   * word and the letter, and no multiplier is below 1.
   */
  lemma MultipliersIdentifyKind(k: SquareKind, k': SquareKind)
    ensures 1 <= WordMultiplier(k) <= 3 && 1 <= LetterMultiplier(k) <= 3
    ensures WordMultiplier(k) == 1 || LetterMultiplier(k) == 1
    ensures WordMultiplier(k) == WordMultiplier(k') && LetterMultiplier(k) == LetterMultiplier(k') ==> k == k'
  {
  }

  /**
   * A snapshot of a square. Its constructor copies the special-tile list, and
   * its four mutators throw, so it is a value.
   */
  datatype ImmutableSquare = ImmutableSquare(
    wordMultiplier: int,
    letterMultiplier: int,
    letterTile: Option<LetterTile>,
    specialTiles: seq<SpecialTile>)
  {
    predicate HasSpecialTiles() { |specialTiles| > 0 }

    predicate HasLetterTile() { letterTile.Some? }

    /** `clearSpecialTiles` on a snapshot throws. */
    function ClearSpecialTiles(): (r: Result<ImmutableSquare>)
      ensures r == Err(UnsupportedOperation("Immutable Square"))
    {
      Err(UnsupportedOperation("Immutable Square"))
    }

    /** `placeSpecialTile` on a snapshot throws. */
    function PlaceSpecialTile(t: SpecialTile): (r: Result<ImmutableSquare>)
      ensures r == Err(UnsupportedOperation("Immutable Square"))
    {
      Err(UnsupportedOperation("Immutable Square"))
    }

    /** `placeLetterTile` on a snapshot throws. */
    function PlaceLetterTile(t: LetterTile): (r: Result<ImmutableSquare>)
      ensures r == Err(UnsupportedOperation("Immutable Square"))
    {
      Err(UnsupportedOperation("Immutable Square"))
    }

    /** `removeLetterTile` on a snapshot throws. */
    function RemoveLetterTile(): (r: Result<LetterTile>)
      ensures r == Err(UnsupportedOperation("Immutable Square"))
    {
      Err(UnsupportedOperation("Immutable Square"))
    }
  }

  /** A square the board owns: a fixed kind, an optional letter tile and a list of special tiles. */
  class SquareImpl {
    const kind: SquareKind
    var letterTile: Option<LetterTile>
    var specialTiles: seq<SpecialTile>

    constructor (kind: SquareKind)
      ensures this.kind == kind && letterTile == None && specialTiles == []
    {
      this.kind := kind;
      letterTile := None;
      specialTiles := [];
    }

    /** This square as a read-only snapshot. */
    function View(): (v: ImmutableSquare)
      reads this
      ensures v.wordMultiplier == WordMultiplier(kind) && v.letterMultiplier == LetterMultiplier(kind)
      ensures v.letterTile == letterTile && v.specialTiles == specialTiles
    {
      ImmutableSquare(WordMultiplier(kind), LetterMultiplier(kind), letterTile, specialTiles)
    }

    predicate HasSpecialTiles()
      reads this
    {
      |specialTiles| > 0
    }

    predicate HasLetterTile()
      reads this
    {
      letterTile.Some?
    }

    /** `clearSpecialTiles`: drops every special tile and keeps the letter. */
    method ClearSpecialTiles()
      modifies this
      ensures specialTiles == [] && letterTile == old(letterTile)
    {
      specialTiles := [];
    }

    /** `placeSpecialTile`: appends, whatever is already there. */
    method PlaceSpecialTile(t: SpecialTile)
      modifies this
      ensures specialTiles == old(specialTiles) + [t] && letterTile == old(letterTile)
    {
      specialTiles := specialTiles + [t];
    }

    /** `placeLetterTile`: replaces the letter, whatever is already there. */
    method PlaceLetterTile(t: LetterTile)
      modifies this
      ensures letterTile == Some(t) && specialTiles == old(specialTiles)
    {
      letterTile := Some(t);
    }

    /** `removeLetterTile`: empties the letter slot and returns what it held (possibly null). */
    method RemoveLetterTile() returns (removed: Option<LetterTile>)
      modifies this
      ensures removed == old(letterTile)
      ensures letterTile == None && specialTiles == old(specialTiles)
    {
      removed := letterTile;
      letterTile := None;
    }
  }
}
