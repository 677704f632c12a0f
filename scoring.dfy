/**
 * The words a move forms and the score credited for it (`words` and
 * `totalScore` of game/Move.java). The words are stated as functions of a
 * board snapshot; the methods walk the placements as the Java loops do and
 * are proved to compute those functions.
 */
module Scoring {
  import opened Wrappers
  import opened Geometry
  import opened PlayedWords
  import opened Moves
  import opened BoardStates
  import opened Boards

  /** The orientation across a line. */
  function Across(o: Orientation): (c: Orientation)
    ensures c != o
  {
    if o == Horizontal then Vertical else Horizontal
  }

  /** An error, or the words `pre` followed by the ones `rest` carries. */
  function Prepend(pre: seq<Option<PlayedWord>>, rest: Result<seq<Option<PlayedWord>>>): Result<seq<Option<PlayedWord>>>
  {
    if rest.Err? then rest else Ok(pre + rest.value)
  }

  /** Prepending nothing changes nothing. */
  lemma PrependNothing(rest: Result<seq<Option<PlayedWord>>>)
    ensures Prepend([], rest) == rest
  {
    if rest.Ok? {
      assert [] + rest.value == rest.value;
    }
  }

  /** Prepending twice is prepending the concatenation. */
  lemma PrependTwice(pre: seq<Option<PlayedWord>>, more: seq<Option<PlayedWord>>, rest: Result<seq<Option<PlayedWord>>>)
    ensures Prepend(pre, Prepend(more, rest)) == Prepend(pre + more, rest)
  {
    if rest.Ok? {
      assert pre + (more + rest.value) == (pre + more) + rest.value;
    }
  }

  /**
   * The loop over the placements in `words`: the word across the line
   * through each position, keeping only those that are not null. The first
   * position whose word extraction throws ends the loop with that exception.
   */
  function CrossWords(b: BoardState, ps: seq<Position>, o: Orientation): Result<seq<Option<PlayedWord>>>
    requires Grid(b)
  {
    if ps == [] then Ok([])
    else
      var w :- ContinuousWord(b, ps[0], Across(o));
      Prepend(Kept(w), CrossWords(b, ps[1..], o))
  }

  /** A word the loops add only when it is not null. */
  function Kept(w: Option<PlayedWord>): seq<Option<PlayedWord>>
  {
    if w.Some? then [w] else []
  }

  /** One round of the crossing loop, at position `j`. */
  lemma CrossStep(b: BoardState, ps: seq<Position>, j: nat, o: Orientation)
    requires Grid(b) && j < |ps|
    ensures var w := ContinuousWord(b, ps[j], Across(o));
      CrossWords(b, ps[j..], o) ==
        if w.Err? then Err(w.fault) else Prepend(Kept(w.value), CrossWords(b, ps[j + 1..], o))
  {
    assert ps[j..][1..] == ps[j + 1..];
  }

  /** Some position of the move is not a key of the board. */
  predicate OffBoard(b: BoardState, ps: seq<Position>)
  {
    exists i :: 0 <= i < |ps| && ps[i] !in b.squares
  }

  /**
   * `words(board)`: a position off the board throws; a move of two or more
   * tiles gives the word along its orientation through the first position
   * (null included) followed by the non-null crossing words; a single tile
   * gives its non-null horizontal and vertical words, in that order.
   */
  function WordsOf(b: BoardState, m: Move): Result<seq<Option<PlayedWord>>>
    requires Grid(b)
  {
    var ps := m.Positions();
    if OffBoard(b, ps) then Err(IllegalArgument("Letter placements incompatable with board argument."))
    else if |ps| > 1 then LineWordsOf(b, ps, m.Orientation())
    else if |ps| == 1 then TileWordsOf(b, ps[0])
    else Ok([])
  }

  /** The words of a move of two or more tiles: along the line through the first position, then across. */
  function LineWordsOf(b: BoardState, ps: seq<Position>, o: Orientation): Result<seq<Option<PlayedWord>>>
    requires Grid(b) && |ps| > 0
  {
    var first :- ContinuousWord(b, ps[0], o);
    Prepend([first], CrossWords(b, ps, o))
  }

  /** The words of a single tile: the non-null horizontal word, then the non-null vertical one. */
  function TileWordsOf(b: BoardState, p: Position): Result<seq<Option<PlayedWord>>>
    requires Grid(b)
  {
    var horizontal :- ContinuousWord(b, p, Horizontal);
    var vertical :- ContinuousWord(b, p, Vertical);
    Ok(Kept(horizontal) + Kept(vertical))
  }

  /**
   * The loop of `totalScore`, which assigns each word's score to `sum` in
   * turn; calling `score()` on a null word throws.
   */
  function ScoreLoop(words: seq<Option<PlayedWord>>, sum: int): Result<int>
  {
    if words == [] then Ok(sum)
    else if words[0].None? then Err(NullPointer)
    else ScoreLoop(words[1..], words[0].value.score)
  }

  /** `totalScore(board)`: the `words` loop run over the move's words. */
  function TotalScoreOf(b: BoardState, m: Move): Result<int>
    requires Grid(b)
  {
    var words :- WordsOf(b, m);
    ScoreLoop(words, 0)
  }

  /** The sum of the word scores, which the doc comment of `totalScore` promises. */
  function SumOfScores(words: seq<PlayedWord>): int
  {
    if words == [] then 0 else words[0].score + SumOfScores(words[1..])
  }

  /** Every word of the list is present. */
  predicate AllPresent(words: seq<Option<PlayedWord>>)
  {
    forall i :: 0 <= i < |words| ==> words[i].Some?
  }

  /** The words of a list none of whose entries is null. */
  function Present(words: seq<Option<PlayedWord>>): (ws: seq<PlayedWord>)
    requires AllPresent(words)
    ensures |ws| == |words|
    ensures forall i :: 0 <= i < |words| ==> ws[i] == words[i].value
  {
    seq(|words|, i requires 0 <= i < |words| && AllPresent(words) => words[i].value)
  }

  /**
   * `totalScore` is the score of the LAST word (0 when there is none), not
   * the sum of the scores, and it throws exactly when some word is null.
   */
  lemma {:induction false} ScoreLoopIsLastWord(words: seq<Option<PlayedWord>>, sum: int)
    ensures ScoreLoop(words, sum).Err? <==> !AllPresent(words)
    ensures AllPresent(words) ==>
      ScoreLoop(words, sum) == Ok(if words == [] then sum else words[|words| - 1].value.score)
  {
    if words != [] && words[0].Some? {
      ScoreLoopIsLastWord(words[1..], words[0].value.score);
      assert AllPresent(words) <==> AllPresent(words[1..]) by {
        forall i | 0 <= i < |words[1..]| ensures words[1..][i] == words[i + 1] {}
      }
    }
  }

  /** Two scored words are enough for `totalScore` to differ from the sum it is documented to be. */
  lemma TotalScoreIsNotTheSum(w1: PlayedWord, w2: PlayedWord)
    requires w1.score != 0
    ensures ScoreLoop([Some(w1), Some(w2)], 0) == Ok(w2.score)
    ensures SumOfScores([w1, w2]) != w2.score
  {
    ScoreLoopIsLastWord([Some(w1), Some(w2)], 0);
    assert [w1, w2][1..] == [w2] && [w2][1..] == [];
    assert SumOfScores([w2]) == w2.score;
    assert SumOfScores([w1, w2]) == w1.score + w2.score;
  }

  /** Every word the crossing loop keeps is present, and there is at most one per position. */
  lemma {:induction false} CrossWordsShape(b: BoardState, ps: seq<Position>, o: Orientation)
    requires Grid(b)
    ensures CrossWords(b, ps, o).Ok? ==>
      AllPresent(CrossWords(b, ps, o).value) && |CrossWords(b, ps, o).value| <= |ps|
  {
    if ps != [] {
      CrossWordsShape(b, ps[1..], o);
    }
  }

  /**
   * The shape of `words`: any position off the board throws the argument
   * error; for two or more tiles only the first entry can be null and there
   * are at most one more entries than tiles; for one tile there are at most
   * two entries and none is null.
   */
  lemma WordsShape(b: BoardState, m: Move)
    requires Grid(b) && m.Valid()
    ensures OffBoard(b, m.Positions()) ==>
      WordsOf(b, m) == Err(IllegalArgument("Letter placements incompatable with board argument."))
    ensures WordsOf(b, m).Ok? && |m.placements| > 1 ==>
      var ws := WordsOf(b, m).value;
      1 <= |ws| <= |m.placements| + 1 && AllPresent(ws[1..])
    ensures WordsOf(b, m).Ok? && |m.placements| == 1 ==>
      |WordsOf(b, m).value| <= 2 && AllPresent(WordsOf(b, m).value)
  {
    var ps := m.Positions();
    CrossWordsShape(b, ps, m.Orientation());
    if !OffBoard(b, ps) && |ps| > 1 && WordsOf(b, m).Ok? {
      var first := ContinuousWord(b, ps[0], m.Orientation()).value;
      assert WordsOf(b, m).value[1..] == CrossWords(b, ps, m.Orientation()).value;
    }
  }

  /** Only the first word can be null, and only for a move of two or more tiles. */
  lemma TotalScoreThrowsOnlyForNullFirstWord(b: BoardState, m: Move)
    requires Grid(b) && m.Valid()
    requires WordsOf(b, m).Ok?
    ensures var ws := WordsOf(b, m).value;
      && (TotalScoreOf(b, m).Err? <==> |m.placements| > 1 && |ws| > 0 && ws[0].None?)
      && (TotalScoreOf(b, m).Ok? ==> AllPresent(ws))
  {
    var ws := WordsOf(b, m).value;
    WordsShape(b, m);
    ScoreLoopIsLastWord(ws, 0);
    if |m.placements| > 1 && ws[0].Some? {
      assert AllPresent(ws) by {
        forall i | 0 <= i < |ws| ensures ws[i].Some? {
          if i > 0 {
            assert ws[i] == ws[1..][i - 1];
          }
        }
      }
    }
  }

  /** `words(board)` on the live board. */
  method Words(board: Board, m: Move) returns (r: Result<seq<Option<PlayedWord>>>)
    requires board.Keyed() && m.Valid()
    ensures r == WordsOf(board.Snapshot(), m)
  {
    ghost var b := board.Snapshot();
    var ps := m.Positions();
    var i := 0;
    while i < |ps|
      invariant 0 <= i <= |ps|
      invariant forall k :: 0 <= k < i ==> ps[k] in b.squares
    {
      if !board.IsValidPosition(ps[i]) {
        return Err(IllegalArgument("Letter placements incompatable with board argument."));
      }
      i := i + 1;
    }
    assert !OffBoard(b, ps);
    if |ps| > 1 {
      r := LineWords(board, ps, m.Orientation());
    } else {
      r := TileWords(board, ps[0]);
    }
  }

  /** The two-or-more-tile branch of `words(board)`. */
  method LineWords(board: Board, ps: seq<Position>, o: Orientation) returns (r: Result<seq<Option<PlayedWord>>>)
    requires board.Keyed() && |ps| > 0
    ensures r == LineWordsOf(board.Snapshot(), ps, o)
  {
    var first :- WordIncluding(board, ps[0], o);
    var crossing :- CrossingWords(board, ps, o);
    return Ok([first] + crossing);
  }

  /** The loop of `words(board)` over every placement, adding each non-null crossing word. */
  method CrossingWords(board: Board, ps: seq<Position>, o: Orientation) returns (r: Result<seq<Option<PlayedWord>>>)
    requires board.Keyed()
    ensures r == CrossWords(board.Snapshot(), ps, o)
  {
    ghost var b := board.Snapshot();
    var words := [];
    var j := 0;
    assert ps[0..] == ps;
    PrependNothing(CrossWords(b, ps, o));
    while j < |ps|
      invariant 0 <= j <= |ps|
      invariant CrossWords(b, ps, o) == Prepend(words, CrossWords(b, ps[j..], o))
    {
      CrossStep(b, ps, j, o);
      var tempWord :- WordIncluding(board, ps[j], Across(o));
      PrependTwice(words, Kept(tempWord), CrossWords(b, ps[j + 1..], o));
      if tempWord.Some? {
        words := words + [tempWord];
      } else {
        assert words + Kept(tempWord) == words;
      }
      j := j + 1;
    }
    assert ps[|ps|..] == [] && words + [] == words;
    return Ok(words);
  }

  /** The one-tile branch of `words(board)`. */
  method TileWords(board: Board, p: Position) returns (r: Result<seq<Option<PlayedWord>>>)
    requires board.Keyed()
    ensures r == TileWordsOf(board.Snapshot(), p)
  {
    var horizontal :- board.HorizontalWordIncluding(p);
    var words := if horizontal.Some? then [horizontal] else [];
    var vertical :- board.VerticalWordIncluding(p);
    if vertical.Some? {
      words := words + [vertical];
    } else {
      assert words + [] == words;
    }
    return Ok(words);
  }

  /** `horizontalWordIncluding` or `verticalWordIncluding`, as the orientation says. */
  method WordIncluding(board: Board, p: Position, o: Orientation) returns (r: Result<Option<PlayedWord>>)
    requires board.Keyed()
    ensures r == ContinuousWord(board.Snapshot(), p, o)
  {
    if o == Horizontal {
      r := board.HorizontalWordIncluding(p);
    } else {
      r := board.VerticalWordIncluding(p);
    }
  }

  /** `totalScore(board)`: the loop that keeps the last word's score. */
  method TotalScore(board: Board, m: Move) returns (r: Result<int>)
    requires board.Keyed() && m.Valid()
    ensures r == TotalScoreOf(board.Snapshot(), m)
  {
    var words :- Words(board, m);
    var sum := 0;
    var i := 0;
    while i < |words|
      invariant 0 <= i <= |words|
      invariant ScoreLoop(words, 0) == ScoreLoop(words[i..], sum)
    {
      if words[i].None? {
        return Err(NullPointer);
      }
      assert words[i..][1..] == words[i + 1..];
      sum := words[i].value.score;
      i := i + 1;
    }
    assert words[i..] == [];
    return Ok(sum);
  }
}
