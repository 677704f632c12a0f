# Scrabble With Stuff — a verified model of the game core

This project models the rules engine of *Scrabble With Stuff*, a Scrabble variant written in Java. On a 15 by 15 board players lay letter tiles from a rack of seven. Each player can also buy *special tiles* from a store and hide them on empty squares: the player whose move later covers such a square sets them off at the end of the turn. There are five effects:

- negative points: the mover loses twice the move's score;
- reverse: the turn order changes direction;
- boom: clears a 7 by 7 square of the board and rescores the move;
- steal score: the tile's owner takes the move's score;
- skip turn.

Any other player can challenge the last move against a dictionary. A failed challenge skips the challenger; a successful one takes the move back.

The model follows the Java classes one by one:

- mutable objects become Dafny classes with the same fields: `Board`, `SquareImpl`, `Player`, `Turn`, `TileBag`, the store and its builder, and the game itself (`Games.Game`, for `SWSGame`);
- tiles become classes too, because the Java code compares them by reference: `LetterTile` and `SpecialTile`;
- values become datatypes: `Position`, `Letter`, `Move`, `PlayedWord`, `Direction`, and the read-only square view;
- Java exceptions become a `Result` whose error carries the exception's kind and message;
- an operation that the Java code refuses silently, by only notifying listeners, is an `Ok` that changes nothing.

Each live class has a `Snapshot()` (or plain fields) tying it to value-level functions (`BoardStates`, `Scoring`, `SpecialEffects`, `EffectRules`, `GameRules`). Every loop of the Java code is a `while` loop whose result is proved equal to such a function, and the lemmas about those functions carry the properties.

Proved about the model:

- letters, positions and moves:
  - the letter decoder and the tile values;
  - position ordering and the move's corners;
  - the acceptance condition of `isValidMove`: what an accepted move satisfies, and that a move satisfying it is accepted;
  - the word through a square is the maximal run of letters;
- the placing loop succeeds exactly on free, on-board squares;
- a successful challenge restores the board exactly and returns the same tiles to the rack, as a multiset;
- the end-of-turn effects keep the board's grid, only clear special tiles, and flip the direction once per reverse tile;
- a steal keeps the sum of the two scores;
- the letter, special and end gates admit only the turn's player, and the challenge gate admits only someone else;
- the bag only permutes its tiles when drawing and swapping;
- the default bag holds 98 tiles;
- the default board layout has no square of two kinds;
- while a turn is under way, the player index stays in range.

Behaviours of the code that the model keeps as written, and proves:

- `Move.totalScore` assigns rather than adds, so it returns the LAST word's score, not the sum its documentation promises (`Scoring.ScoreLoopIsLastWord`, `Scoring.TotalScoreIsNotTheSum`);
- `SpecialTileStore.buySpecialTile` ADDS the price to the buyer's score;
- `Letter.fromChar` has no `J` or `R` case: `'J'` falls through to `E` and `'R'` to `S`, so no character decodes to J or R (`Letters.FromCharMissesJAndR`);
- `Direction.adjacent` throws `IllegalArgumentException` for a step off the top or left edge. It never returns null, although its documentation says it does (`Geometry.AdjacentNeverNull`);
- `Board.isValidMove` dereferences a null position for a move that ends in the last row or column (`BoardStates.IsValidMoveThrowsAtFarEdge`). `Board.hasAdjacentLetter` throws on row 0 (`BoardStates.HasAdjacentLetterSpec`);
- `Position.compareTo` returns 1 for two different positions at the same distance, so it is not antisymmetric (`Geometry.CompareToNotAntisymmetric`).

The dictionary, the random number generator and the iteration order of Java's hash maps are parameters:

- the dictionary is `isValidWord`, a function from a word (or null) to a `Result<bool>`;
- the random number generator is `random: nat -> nat`, a stream indexed by a draw counter;
- a move's placements form a sequence in iteration order. The log of triggered special tiles is walked in the order of an `order` argument that lists its keys.

## Model

| member | source | states |
|---|---|---|
| Letters.Name | src/main/java/edu/cmu/cs/cs323/scrabble/core/letters/Letter.java:6-32 | every letter's enum name is one capital between A and Z |
| Letters.FromChar | src/main/java/edu/cmu/cs/cs323/scrabble/core/letters/Letter.java:41-70 | never yields J or R (their cases fall through to E and S), and every character outside 'A'..'Y' yields Z |
| Letters.FromCharName | src/main/java/edu/cmu/cs/cs323/scrabble/core/letters/Letter.java:41-70 | reading a letter's name back gives the letter, except J gives E and R gives S |
| Letters.FromCharMissesJAndR | src/main/java/edu/cmu/cs/cs323/scrabble/core/letters/Letter.java:41-70 | no character at all decodes to J or R |
| Letters.PointsForLetter | src/main/java/edu/cmu/cs/cs323/scrabble/core/letters/LetterTile.java:29-58 | the face value is one of 1, 2, 3, 4, 5, 8, 10; it is 1 exactly for A E I L N O R S T U and 10 exactly for Q and Z |
| Letters.LetterTile.constructor | src/main/java/edu/cmu/cs/cs323/scrabble/core/letters/LetterTile.java:17-20 | a tile keeps its letter and takes that letter's face value, between 1 and 10 |
| Letters.DecimalRoundTrip | src/main/java/edu/cmu/cs/cs323/scrabble/core/letters/LetterTile.java:61-63 | the decimal digits written for a number read back as that number |
| Letters.IntString | src/main/java/edu/cmu/cs/cs323/scrabble/core/letters/LetterTile.java:61-63 | Java's rendering of an int starts with '-' exactly for a negative number, and its digits read back as the magnitude |
| Letters.TileString | src/main/java/edu/cmu/cs/cs323/scrabble/core/letters/LetterTile.java:61-63 | a tile renders as its letter, a colon and digits that read back as its points |
| Geometry.NewPosition | src/main/java/edu/cmu/cs/cs323/scrabble/core/board/Position.java:18-24 | construction succeeds exactly for a non-negative row and column, and keeps both |
| Geometry.HashCodeInjective | src/main/java/edu/cmu/cs/cs323/scrabble/core/board/Position.java:33-35 | on a board narrower than 31 columns, equal hash codes mean equal positions |
| Geometry.CompareTo | src/main/java/edu/cmu/cs/cs323/scrabble/core/board/Position.java:65-70 | the result is -1, 0 or 1: 0 exactly for equal positions, -1 exactly when strictly closer to the origin, 1 for every other pair, ties included |
| Geometry.CompareToNotAntisymmetric | src/main/java/edu/cmu/cs/cs323/scrabble/core/board/Position.java:65-70 | (0,1) and (1,0) each compare greater than the other, so the order is not antisymmetric |
| Geometry.CompareToLessIsAsymmetric | src/main/java/edu/cmu/cs/cs323/scrabble/core/board/Position.java:65-70 | when one position compares less than another, the other compares greater than it |
| Geometry.Dist2AlongRow | src/main/java/edu/cmu/cs/cs323/scrabble/core/board/Position.java:43-55 | along one row, being closer to the origin is being further left, and equal distance is the same column |
| Geometry.Dist2AlongCol | src/main/java/edu/cmu/cs/cs323/scrabble/core/board/Position.java:43-55 | along one column, being closer to the origin is being further up, and equal distance is the same row |
| Geometry.RowsAllEqual | src/main/java/edu/cmu/cs/cs323/scrabble/core/board/Position.java:80-93 | true exactly when every two positions of the list share a row |
| Geometry.ColsAllEqual | src/main/java/edu/cmu/cs/cs323/scrabble/core/board/Position.java:102-115 | true exactly when every two positions of the list share a column |
| Geometry.Adjacent | src/main/java/edu/cmu/cs/cs323/scrabble/core/board/Direction.java:30-37 | throws exactly for a step up from row 0 or left from column 0; otherwise the neighbour one step in the direction |
| Geometry.AdjacentNeverNull | src/main/java/edu/cmu/cs/cs323/scrabble/core/board/Direction.java:30-37 | the `||` guard never lets the method return null |
| Geometry.AdjacentForwards | src/main/java/edu/cmu/cs/cs323/scrabble/core/board/Direction.java:30-37 | a step right or down adds one along the line and stays on it |
| Geometry.AdjacentBackwards | src/main/java/edu/cmu/cs/cs323/scrabble/core/board/Direction.java:30-37 | a step left or up subtracts one along the line, and throws at coordinate 0 |
| JavaInts.JavaRem | src/main/java/edu/cmu/cs/cs323/scrabble/core/game/SWSGame.java:474 | Java's remainder is below the divisor in magnitude, equals the true modulus for a non-negative dividend and is its negation otherwise |
| Players.Player.Named | src/main/java/edu/cmu/cs/cs323/scrabble/core/game/Player.java:26-31 | a new player keeps a non-empty name and starts with score 0, no letters and no special tiles |
| Players.NewPlayer | src/main/java/edu/cmu/cs/cs323/scrabble/core/game/Player.java:26-31 | a null or empty name throws; any other gives a fresh player with score 0 and two empty lists |
| Players.Player.SetScore | src/main/java/edu/cmu/cs/cs323/scrabble/core/game/Player.java:45-47 | the score becomes the given value and nothing else of the player changes |
| Players.PlayerString | src/main/java/edu/cmu/cs/cs323/scrabble/core/game/Player.java:52-54 | a player renders as the name, a colon and the score, digits reading back as a non-negative score and a '-' for a negative one |
| Players.SpecialTile.constructor | src/main/java/edu/cmu/cs/cs323/scrabble/core/specialtile/defaults/BoomSpecialTile.java:28-30 | a special tile keeps its kind and its owner |
| Squares.MultipliersIdentifyKind | src/main/java/edu/cmu/cs/cs323/scrabble/core/board/square/DoubleWordScoreSquare.java:12-19 | multipliers lie between 1 and 3, no kind multiplies both word and letter, and the two multipliers tell every kind apart |
| Squares.ImmutableSquare.ClearSpecialTiles | src/main/java/edu/cmu/cs/cs323/scrabble/core/board/square/ImmutableSquare.java:68-70 | a read-only square refuses with an unsupported-operation error |
| Squares.ImmutableSquare.PlaceSpecialTile | src/main/java/edu/cmu/cs/cs323/scrabble/core/board/square/ImmutableSquare.java:73-75 | a read-only square refuses with an unsupported-operation error |
| Squares.ImmutableSquare.PlaceLetterTile | src/main/java/edu/cmu/cs/cs323/scrabble/core/board/square/ImmutableSquare.java:78-80 | a read-only square refuses with an unsupported-operation error |
| Squares.ImmutableSquare.RemoveLetterTile | src/main/java/edu/cmu/cs/cs323/scrabble/core/board/square/ImmutableSquare.java:83-85 | a read-only square refuses with an unsupported-operation error |
| Squares.SquareImpl.constructor | src/main/java/edu/cmu/cs/cs323/scrabble/core/board/square/SquareImpl.java:20-21 | a new square of a kind holds no letter and no special tile |
| Squares.SquareImpl.View | src/main/java/edu/cmu/cs/cs323/scrabble/core/board/square/ImmutableSquare.java:28-33 | the read-only copy carries the square's two multipliers, its letter and its special tiles |
| Squares.SquareImpl.ClearSpecialTiles | src/main/java/edu/cmu/cs/cs323/scrabble/core/board/square/SquareImpl.java:28-30 | every special tile goes and the letter stays |
| Squares.SquareImpl.PlaceSpecialTile | src/main/java/edu/cmu/cs/cs323/scrabble/core/board/square/SquareImpl.java:43-45 | the tile is appended whatever is there, and the letter stays |
| Squares.SquareImpl.PlaceLetterTile | src/main/java/edu/cmu/cs/cs323/scrabble/core/board/square/SquareImpl.java:48-50 | the letter is replaced whatever is there, and the special tiles stay |
| Squares.SquareImpl.RemoveLetterTile | src/main/java/edu/cmu/cs/cs323/scrabble/core/board/square/SquareImpl.java:58-62 | returns what the letter slot held (possibly nothing) and leaves it empty, special tiles untouched |
| PlayedWords.WordString | src/main/java/edu/cmu/cs/cs323/scrabble/core/board/PlayedWord.java:48-54 | the word renders as its letters' names, one character per letter, in order |
| Moves.PositionsOf | src/main/java/edu/cmu/cs/cs323/scrabble/core/game/Move.java:140-155 | one position per placement, in the placements' iteration order |
| Moves.TilesOf | src/main/java/edu/cmu/cs/cs323/scrabble/core/game/Move.java:140-155 | one tile per placement, in the same order as the positions |
| Moves.ComputeUpperLeft | src/main/java/edu/cmu/cs/cs323/scrabble/core/game/Move.java:166-175 | the corner is a placement closest to the origin, the last such in iteration order |
| Moves.ComputeLowerRight | src/main/java/edu/cmu/cs/cs323/scrabble/core/game/Move.java:177-186 | the corner is a placement furthest from the origin, the first such in iteration order |
| Moves.NewMove | src/main/java/edu/cmu/cs/cs323/scrabble/core/game/Move.java:41-48 | an empty placement map throws; otherwise the move keeps the placements and both corners as stated above |
| Moves.CornersUnique | src/main/java/edu/cmu/cs/cs323/scrabble/core/game/Move.java:166-186 | the positions and their order determine both corners |
| Moves.CornersCoincideIffSingle | src/main/java/edu/cmu/cs/cs323/scrabble/core/game/Move.java:166-186 | the two corners coincide exactly when the move places one tile |
| Moves.CornersOfRow | src/main/java/edu/cmu/cs/cs323/scrabble/core/game/Move.java:166-186 | for a move along a row the corners are its leftmost and rightmost placement, and all placements lie between them |
| Moves.CornersOfCol | src/main/java/edu/cmu/cs/cs323/scrabble/core/game/Move.java:166-186 | for a move along a column the corners are its top and bottom placement, and all placements lie between them |
| Moves.OrientationOfLine | src/main/java/edu/cmu/cs/cs323/scrabble/core/game/Move.java:162-164 | a move of two or more tiles along a row is ACROSS and one along a column is DOWN |
| BoardStates.NextPosition | src/main/java/edu/cmu/cs/cs323/scrabble/core/board/Board.java:409-412 | throws exactly where `adjacent` throws; otherwise the neighbour when it is on the board, null when it is not |
| BoardStates.RunStart | src/main/java/edu/cmu/cs/cs323/scrabble/core/board/Board.java:361-373 | the backward scan, when it ends, stops on a letter of the same line no further along than the start |
| BoardStates.ContinuousWord | src/main/java/edu/cmu/cs/cs323/scrabble/core/board/Board.java:361-407 | an off-board position dereferences null and an empty square throws the no-tile error |
| BoardStates.RunFromLettered | src/main/java/edu/cmu/cs/cs323/scrabble/core/board/Board.java:377-399 | every square of the forward run holds a letter |
| BoardStates.RunFromStep | src/main/java/edu/cmu/cs/cs323/scrabble/core/board/Board.java:377-399 | one forward step: `nextPosition` gives the next square, and the run continues from it exactly when it holds a letter |
| BoardStates.RunFromTally | src/main/java/edu/cmu/cs/cs323/scrabble/core/board/Board.java:377-406 | a run's letters, letter-value sum and word-multiplier product are its first square's followed by those of the rest |
| BoardStates.ForwardRound | src/main/java/edu/cmu/cs/cs323/scrabble/core/board/Board.java:377-399 | one round of the forward loop keeps its letters, sum and product in step with the run |
| BoardStates.ForwardDone | src/main/java/edu/cmu/cs/cs323/scrabble/core/board/Board.java:377-406 | when the forward loop stops, its result is the run's word: null for one letter, else the letters and sum times product |
| BoardStates.ForwardStep | src/main/java/edu/cmu/cs/cs323/scrabble/core/board/Board.java:377-399 | the run after a square starts with the next letter and adds its value |
| BoardStates.RunStartFindsStart | src/main/java/edu/cmu/cs/cs323/scrabble/core/board/Board.java:366-373 | the backward scan stops at the first letter of the run, and throws when the run reaches the top or left edge |
| BoardStates.RunFromFindsEnd | src/main/java/edu/cmu/cs/cs323/scrabble/core/board/Board.java:377-399 | the forward run is exactly the squares up to the last letter of the run |
| BoardStates.MaximalRunExists | src/main/java/edu/cmu/cs/cs323/scrabble/core/board/Board.java:361-407 | every letter lies on a longest stretch of letters along its line |
| BoardStates.ContinuousWordIsMaximalRun | src/main/java/edu/cmu/cs/cs323/scrabble/core/board/Board.java:361-407 | the word through a letter is its longest run: null for a single letter, else its letters in order with their score; a run touching the top or left edge throws |
| BoardStates.HasAdjacentLetterSpec | src/main/java/edu/cmu/cs/cs323/scrabble/core/board/Board.java:350-358 | answers true exactly when an orthogonal neighbour holds a letter, but throws on row 0, and on column 0 unless up, down or right already answered |
| BoardStates.HasAdjacentLetterUnfold | src/main/java/edu/cmu/cs/cs323/scrabble/core/board/Board.java:350-358 | the four tries in order UP, DOWN, RIGHT, LEFT, each throwing for a negative coordinate |
| BoardStates.AdjacentLetterStep | src/main/java/edu/cmu/cs/cs323/scrabble/core/board/Board.java:350-358 | one try: a negative coordinate throws, a letter answers true, otherwise the next direction is tried |
| BoardStates.WalkStep | src/main/java/edu/cmu/cs/cs323/scrabble/core/board/Board.java:108-116 | one round of the contiguity loop moves to the next square, or stops successfully off the board |
| BoardStates.WalkSpec | src/main/java/edu/cmu/cs/cs323/scrabble/core/board/Board.java:108-116 | towards a square on the board, the loop never throws and succeeds exactly when every square on the way holds a letter or a placement |
| BoardStates.WalkIgnoresPlacedSquares | src/main/java/edu/cmu/cs/cs323/scrabble/core/board/Board.java:108-116 | what lies on a placement's square does not affect the contiguity loop |
| BoardStates.FirstMoveIgnoresOccupiedSquares | src/main/java/edu/cmu/cs/cs323/scrabble/core/board/Board.java:79-127 | a first move is judged the same whatever letter already lies under one of its placements |
| BoardStates.LineCorners | src/main/java/edu/cmu/cs/cs323/scrabble/core/board/Board.java:99-110 | for a move along a line both corners lie on it, in order, with every placement between them |
| BoardStates.AnchoredMeans | src/main/java/edu/cmu/cs/cs323/scrabble/core/board/Board.java:118-126 | the last test accepts a first move only with two or more tiles and a later one only with a letter beside a corner |
| BoardStates.IsValidMoveAccepted | src/main/java/edu/cmu/cs/cs323/scrabble/core/board/Board.java:79-127 | an accepted move is held by the player, lies on one line on the board with no gap and a square after it, and is either a first move of two or more tiles or touches a letter at a corner |
| BoardStates.IsValidMoveAccepts | src/main/java/edu/cmu/cs/cs323/scrabble/core/board/Board.java:79-127 | conversely such a move is accepted: a first move of two or more tiles, and a later move when `hasAdjacentLetter` answers true at its upper-left corner, or false there and true at its lower-right corner |
| BoardStates.IsValidMoveThrowsAtFarEdge | src/main/java/edu/cmu/cs/cs323/scrabble/core/board/Board.java:79-127 | a held move along a line that ends in the last column or row throws the null dereference |
| BoardStates.IsValidMoveAcceptedShape | src/main/java/edu/cmu/cs/cs323/scrabble/core/board/Board.java:84-116 | an accepted move is held by the player, on one line, on the board, with no gap between its corners and a square after it |
| BoardStates.IsValidMoveAcceptedAnchor | src/main/java/edu/cmu/cs/cs323/scrabble/core/board/Board.java:118-126 | an accepted first move has two or more tiles, and an accepted later move has a letter beside one of its corners |
| BoardStates.Successor | src/main/java/edu/cmu/cs/cs323/scrabble/core/board/Board.java:409-412 | the next square along the line, when there is one on the board |
| Boards.PickupUndoesPlace | src/main/java/edu/cmu/cs/cs323/scrabble/core/board/Board.java:137-216 | placing a letter on an empty square and picking it up gives back the board |
| Boards.PutSpecialKeepsOneTilePerOwner | src/main/java/edu/cmu/cs/cs323/scrabble/core/board/Board.java:157-167 | a special tile the board accepts keeps at most one tile per owner on every square |
| Boards.Board.constructor | src/main/java/edu/cmu/cs/cs323/scrabble/core/board/Board.java:48-52 | the board keeps the given size and squares |
| Boards.Board.Snapshot | src/main/java/edu/cmu/cs/cs323/scrabble/core/board/Board.java:268-276 | the board's value: each square as its read-only copy, and a grid when the board is keyed by it |
| Boards.Board.IsValidPosition | src/main/java/edu/cmu/cs/cs323/scrabble/core/board/Board.java:64-66 | a position is valid exactly when it lies inside the grid |
| Boards.Board.NextPosition | src/main/java/edu/cmu/cs/cs323/scrabble/core/board/Board.java:409-412 | the live board gives what `NextPosition` says of its value |
| Boards.Board.GetContinuousWord | src/main/java/edu/cmu/cs/cs323/scrabble/core/board/Board.java:361-407 | the live loops give the word `ContinuousWord` says, hence the longest run of letters through the position |
| Boards.Board.RunStart | src/main/java/edu/cmu/cs/cs323/scrabble/core/board/Board.java:366-373 | the backward loop gives the first letter of the run |
| Boards.Board.WordFrom | src/main/java/edu/cmu/cs/cs323/scrabble/core/board/Board.java:377-406 | the forward loop gives the word of the run from the start |
| Boards.Board.HorizontalWordIncluding | src/main/java/edu/cmu/cs/cs323/scrabble/core/board/Board.java:182-184 | the word through the position along its row |
| Boards.Board.VerticalWordIncluding | src/main/java/edu/cmu/cs/cs323/scrabble/core/board/Board.java:198-200 | the word through the position along its column |
| Boards.Board.HasAdjacentLetter | src/main/java/edu/cmu/cs/cs323/scrabble/core/board/Board.java:350-358 | the live loop gives what `HasAdjacentLetterSpec` characterises |
| Boards.Board.IsValidMove | src/main/java/edu/cmu/cs/cs323/scrabble/core/board/Board.java:79-127 | the live checks give what `IsValidMoveAccepted` and `IsValidMoveAccepts` characterise |
| Boards.Board.OnLine | src/main/java/edu/cmu/cs/cs323/scrabble/core/board/Board.java:104-126 | the checks after the line test, on the live board |
| Boards.Board.Contiguous | src/main/java/edu/cmu/cs/cs323/scrabble/core/board/Board.java:108-116 | the live contiguity loop gives what `WalkSpec` characterises |
| Boards.Board.Anchored | src/main/java/edu/cmu/cs/cs323/scrabble/core/board/Board.java:118-126 | the live corner test gives what `AnchoredMeans` characterises |
| Boards.Board.PlaceLetterTile | src/main/java/edu/cmu/cs/cs323/scrabble/core/board/Board.java:137-142 | fails, changing nothing, exactly off the board or on a lettered square; otherwise only that square gets the letter |
| Boards.Board.PlaceSpecialTile | src/main/java/edu/cmu/cs/cs323/scrabble/core/board/Board.java:157-167 | refuses off the board or on a letter, then where the owner already has a tile, changing nothing; otherwise appends the tile at that square only |
| Boards.Board.PickupLetterTile | src/main/java/edu/cmu/cs/cs323/scrabble/core/board/Board.java:210-216 | fails exactly off the board; otherwise returns the square's letter (possibly none) and empties only that square's letter slot |
| Boards.Board.PickupSpecialTiles | src/main/java/edu/cmu/cs/cs323/scrabble/core/board/Board.java:229-240 | fails exactly off the board; otherwise returns the square's special tiles in order and clears only them |
| Boards.Board.GetLetterTile | src/main/java/edu/cmu/cs/cs323/scrabble/core/board/Board.java:251-258 | fails exactly off the board; otherwise the square's letter, present exactly when the square holds one |
| Boards.Board.ViewOfSquare | src/main/java/edu/cmu/cs/cs323/scrabble/core/board/Board.java:268-276 | fails exactly off the board; otherwise the square's read-only copy |
| Boards.Blank | src/main/java/edu/cmu/cs/cs323/scrabble/core/board/Board.java:29-37 | a fresh board with a fresh empty square, multipliers 1, at every grid position and nowhere else |
| Boards.FilledState | src/main/java/edu/cmu/cs/cs323/scrabble/core/board/DefaultBoard.java:30-58 | the empty board of the given kinds is a grid with at most one special tile per owner on a square |
| Boards.Fill | src/main/java/edu/cmu/cs/cs323/scrabble/core/board/DefaultBoard.java:43-57 | the nested loops put a fresh empty square of the chosen kind at every grid position and nowhere else |
| Scoring.CrossStep | src/main/java/edu/cmu/cs/cs323/scrabble/core/game/Move.java:108-116 | one round of the crossing loop: an exception stops it, a null word is skipped, any other word is added |
| Scoring.ScoreLoopIsLastWord | src/main/java/edu/cmu/cs/cs323/scrabble/core/game/Move.java:144-150 | the scoring loop throws exactly when some word is null and otherwise gives the LAST word's score, not the sum |
| Scoring.TotalScoreIsNotTheSum | src/main/java/edu/cmu/cs/cs323/scrabble/core/game/Move.java:138-150 | two words whose first scores non-zero are enough for the result to differ from the documented sum |
| Scoring.CrossWordsShape | src/main/java/edu/cmu/cs/cs323/scrabble/core/game/Move.java:108-116 | every word the crossing loop keeps is present, at most one per placement |
| Scoring.WordsShape | src/main/java/edu/cmu/cs/cs323/scrabble/core/game/Move.java:89-136 | an off-board placement throws the incompatible-board error; for two or more tiles only the first word can be null, with at most one more word than tiles; one tile gives at most two words, none null |
| Scoring.TotalScoreThrowsOnlyForNullFirstWord | src/main/java/edu/cmu/cs/cs323/scrabble/core/game/Move.java:89-150 | the total score throws exactly when the move has two or more tiles and its first word is null |
| Scoring.Words | src/main/java/edu/cmu/cs/cs323/scrabble/core/game/Move.java:89-136 | the live method gives the words `WordsShape` characterises |
| Scoring.LineWords | src/main/java/edu/cmu/cs/cs323/scrabble/core/game/Move.java:98-121 | the two-or-more-tile branch: the word along the line, then the crossing words |
| Scoring.CrossingWords | src/main/java/edu/cmu/cs/cs323/scrabble/core/game/Move.java:108-116 | the live crossing loop gives what `CrossWordsShape` characterises |
| Scoring.TileWords | src/main/java/edu/cmu/cs/cs323/scrabble/core/game/Move.java:122-134 | the one-tile branch: the horizontal then the vertical word, each only when not null |
| Scoring.WordIncluding | src/main/java/edu/cmu/cs/cs323/scrabble/core/board/Board.java:182-200 | the word through the position along the orientation asked for |
| Scoring.TotalScore | src/main/java/edu/cmu/cs/cs323/scrabble/core/game/Move.java:144-150 | the live loop gives what `ScoreLoopIsLastWord` characterises |
| SpecialEffects.Opposite | src/main/java/edu/cmu/cs/cs323/scrabble/core/game/SWSGame.java:80-92 | each turn direction's opposite is the other one |
| SpecialEffects.OppositeInvolution | src/main/java/edu/cmu/cs/cs323/scrabble/core/game/SWSGame.java:80-92 | reversing twice restores the direction |
| SpecialEffects.ScoreBeforeNullOfPresent | src/main/java/edu/cmu/cs/cs323/scrabble/core/specialtile/defaults/NegativePointsSpecialTile.java:42-52 | with no null word the effect loops add up every word's score |
| SpecialEffects.ScoreBeforeNullStep | src/main/java/edu/cmu/cs/cs323/scrabble/core/specialtile/defaults/NegativePointsSpecialTile.java:42-52 | a present word adds its score and a null word ends the tally |
| SpecialEffects.NegativePointsAction | src/main/java/edu/cmu/cs/cs323/scrabble/core/specialtile/defaults/NegativePointsSpecialTile.java:42-52 | a null last move throws; otherwise the current player loses twice the scores of the words up to the first null one, which throws; nothing else changes |
| SpecialEffects.NegateScores | src/main/java/edu/cmu/cs/cs323/scrabble/core/specialtile/defaults/NegativePointsSpecialTile.java:42-52 | the loop succeeds exactly when no word is null and takes twice the scores counted before any null word |
| SpecialEffects.StealScoreAction | src/main/java/edu/cmu/cs/cs323/scrabble/core/specialtile/defaults/StealScoreSpecialTile.java:48-63 | a null last move throws; otherwise the word scores up to the first null one move from the current player to the owner, cancelling out when they are the same player; the two together keep their total |
| SpecialEffects.TransferScores | src/main/java/edu/cmu/cs/cs323/scrabble/core/specialtile/defaults/StealScoreSpecialTile.java:48-63 | the loop moves the counted scores from the current player to the owner and succeeds exactly when no word is null |
| SpecialEffects.Max0 | src/main/java/edu/cmu/cs/cs323/scrabble/core/specialtile/defaults/BoomSpecialTile.java:61-76 | `Integer.max(x, 0)` is x or 0 and at least x |
| SpecialEffects.BlastSet | src/main/java/edu/cmu/cs/cs323/scrabble/core/specialtile/defaults/BoomSpecialTile.java:61-76 | the removed positions are exactly the square of radius 3 around the tile, clamped at the top and left edges |
| SpecialEffects.ClearSet | src/main/java/edu/cmu/cs/cs323/scrabble/core/specialtile/defaults/BoomSpecialTile.java:61-76 | clearing a set empties exactly its squares of letter and special tiles, keeping their multipliers, and nothing else |
| SpecialEffects.ClearUnion | src/main/java/edu/cmu/cs/cs323/scrabble/core/specialtile/defaults/BoomSpecialTile.java:61-76 | clearing one set and then another clears their union |
| SpecialEffects.RescoreCrossStep | src/main/java/edu/cmu/cs/cs323/scrabble/core/specialtile/defaults/BoomSpecialTile.java:110-117 | one round of the rescoring loop: an exception stops it, otherwise the surviving word's score is added |
| SpecialEffects.RescoreCrossAllRemoved | src/main/java/edu/cmu/cs/cs323/scrabble/core/specialtile/defaults/BoomSpecialTile.java:110-117 | when every placement was blown up, the crossing words add nothing and cannot throw |
| SpecialEffects.WipedOutMoveScoresZero | src/main/java/edu/cmu/cs/cs323/scrabble/core/specialtile/defaults/BoomSpecialTile.java:94-144 | when both corners and every placement were blown up the new score is 0, so the player loses the move's score |
| SpecialEffects.BlastSquare | src/main/java/edu/cmu/cs/cs323/scrabble/core/specialtile/defaults/BoomSpecialTile.java:70-74 | one blast round empties one more square, as clearing one more position says |
| SpecialEffects.BlastRow | src/main/java/edu/cmu/cs/cs323/scrabble/core/specialtile/defaults/BoomSpecialTile.java:66-75 | the inner loop records and empties every column of one row of the blast |
| SpecialEffects.Blast | src/main/java/edu/cmu/cs/cs323/scrabble/core/specialtile/defaults/BoomSpecialTile.java:61-76 | the loops record exactly the blast square and empty exactly those squares on the board |
| SpecialEffects.CornerScore | src/main/java/edu/cmu/cs/cs323/scrabble/core/specialtile/defaults/BoomSpecialTile.java:98-109 | a corner word counts only where the corner survived, and 0 when null |
| SpecialEffects.CrossScores | src/main/java/edu/cmu/cs/cs323/scrabble/core/specialtile/defaults/BoomSpecialTile.java:110-117 | the live rescoring loop gives the sum over the surviving placements |
| SpecialEffects.CornerScores | src/main/java/edu/cmu/cs/cs323/scrabble/core/specialtile/defaults/BoomSpecialTile.java:98-109 | the two corner words, the first exception winning |
| SpecialEffects.NewScore | src/main/java/edu/cmu/cs/cs323/scrabble/core/specialtile/defaults/BoomSpecialTile.java:94-144 | the rescoring of the move on the blasted board, as `WipedOutMoveScoresZero` bounds it |
| SpecialEffects.BoomAction | src/main/java/edu/cmu/cs/cs323/scrabble/core/specialtile/defaults/BoomSpecialTile.java:46-152 | a null move or a throwing total changes nothing; otherwise the blast square is emptied and the current player's score trades the move's total for its new score; nothing else changes |
| SpecialEffects.Rescore | src/main/java/edu/cmu/cs/cs323/scrabble/core/specialtile/defaults/BoomSpecialTile.java:94-150 | the new score replaces the original one in the current player's score, unless rescoring throws |
| EffectRules.Trigger | src/main/java/edu/cmu/cs/cs323/scrabble/core/game/SWSGame.java:303-305 | one tile's action keeps the grid and only keeps or clears special tiles on each square |
| EffectRules.Negated | src/main/java/edu/cmu/cs/cs323/scrabble/core/specialtile/defaults/NegativePointsSpecialTile.java:42-52 | the negate step keeps the board and direction and changes only the current player's score |
| EffectRules.Stolen | src/main/java/edu/cmu/cs/cs323/scrabble/core/specialtile/defaults/StealScoreSpecialTile.java:48-63 | the steal step keeps the board and direction and changes only the current player's and the owner's scores |
| EffectRules.Blasted | src/main/java/edu/cmu/cs/cs323/scrabble/core/specialtile/defaults/BoomSpecialTile.java:46-152 | the boom step keeps the grid and direction, only clears special tiles, and changes only the current player's score |
| EffectRules.TriggerList | src/main/java/edu/cmu/cs/cs323/scrabble/core/game/SWSGame.java:303-305 | the tiles at one square acting in turn keep the grid and only keep or clear special tiles |
| EffectRules.TriggerLog | src/main/java/edu/cmu/cs/cs323/scrabble/core/game/SWSGame.java:301-306 | every logged tile acting, square by square, keeps the grid and only keeps or clears special tiles |
| EffectRules.TriggerListFrom | src/main/java/edu/cmu/cs/cs323/scrabble/core/game/SWSGame.java:303-305 | one round of the inner loop: a throwing action stops it, otherwise the rest follows |
| EffectRules.TriggerLogFrom | src/main/java/edu/cmu/cs/cs323/scrabble/core/game/SWSGame.java:301-306 | one round of the outer loop: a throwing square stops it, otherwise the rest follows |
| EffectRules.Turned | src/main/java/edu/cmu/cs/cs323/scrabble/core/specialtile/defaults/ReverseSpecialTile.java:40-43 | an even number of reversals leaves the direction and an odd number flips it |
| EffectRules.TriggerTurns | src/main/java/edu/cmu/cs/cs323/scrabble/core/specialtile/defaults/ReverseSpecialTile.java:40-43 | only a reverse tile changes the direction, and it flips it once |
| EffectRules.TriggerListDirection | src/main/java/edu/cmu/cs/cs323/scrabble/core/game/SWSGame.java:303-305 | when a square's tiles all act, the direction has flipped once per reverse tile among them |
| EffectRules.TriggerLogDirection | src/main/java/edu/cmu/cs/cs323/scrabble/core/game/SWSGame.java:301-306 | when all logged tiles act, the direction has flipped once per reverse tile in the log |
| EffectRules.TriggerListKeepsBoard | src/main/java/edu/cmu/cs/cs323/scrabble/core/game/SWSGame.java:303-305 | without a boom tile a square's tiles leave the board as it is |
| EffectRules.TriggerLogKeepsBoard | src/main/java/edu/cmu/cs/cs323/scrabble/core/game/SWSGame.java:301-306 | a log without a boom tile leaves the board as it is, even when an action throws |
| EffectRules.StealConserves | src/main/java/edu/cmu/cs/cs323/scrabble/core/specialtile/defaults/StealScoreSpecialTile.java:48-63 | a steal leaves the sum of the two players' scores unchanged |
| EffectRules.TriggerGainsAt | src/main/java/edu/cmu/cs/cs323/scrabble/core/game/SWSGame.java:303-305 | a tile changes only the scores of the current player and its own owner |
| EffectRules.NegatedScores | src/main/java/edu/cmu/cs/cs323/scrabble/core/specialtile/defaults/NegativePointsSpecialTile.java:42-52 | what the live negate action promises is exactly the negate step of the fold |
| EffectRules.StolenScores | src/main/java/edu/cmu/cs/cs323/scrabble/core/specialtile/defaults/StealScoreSpecialTile.java:48-63 | what the live steal action promises is exactly the steal step of the fold |
| EffectRules.BlastedScores | src/main/java/edu/cmu/cs/cs323/scrabble/core/specialtile/defaults/BoomSpecialTile.java:46-152 | what the live boom action promises is exactly the boom step of the fold |
| GameRules.RemoveFirst | src/main/java/edu/cmu/cs/cs323/scrabble/core/game/SWSGame.java:146 | `List.remove(Object)` drops one occurrence if there is one, and nothing else |
| GameRules.RemoveAll | src/main/java/edu/cmu/cs/cs323/scrabble/core/game/SWSGame.java:215 | `removeAll` drops every occurrence of the offered tiles and keeps every other tile as often as before |
| GameRules.RemoveAllHeld | src/main/java/edu/cmu/cs/cs323/scrabble/core/game/SWSGame.java:215 | on a repeat-free rack, removing repeat-free held tiles shortens it by their number and removes exactly them |
| GameRules.OwnedBy | src/main/java/edu/cmu/cs/cs323/scrabble/core/game/SWSGame.java:400-401 | the filter keeps exactly the special tiles the player owns |
| GameRules.PlayerView | src/main/java/edu/cmu/cs/cs323/scrabble/core/game/SWSGame.java:395-404 | an off-board position throws the invalid-position error; otherwise the square with only the player's special tiles |
| GameRules.PlayerViewHasSpecialTiles | src/main/java/edu/cmu/cs/cs323/scrabble/core/game/SWSGame.java:395-404 | a player's view shows a special tile exactly when a tile of that player lies there |
| GameRules.Logged | src/main/java/edu/cmu/cs/cs323/scrabble/core/game/Turn.java:65-70 | logging appends the tiles to the list at the position, leaves other lists alone, and adds no entry for no tiles |
| GameRules.LoggedStep | src/main/java/edu/cmu/cs/cs323/scrabble/core/game/Turn.java:65-70 | logging one more tile appends it to the list at the position, creating the list if needed |
| GameRules.PlaceStep | src/main/java/edu/cmu/cs/cs323/scrabble/core/game/SWSGame.java:140-149 | one round of the placing loop keeps the board's size and positions |
| GameRules.PlaceAll | src/main/java/edu/cmu/cs/cs323/scrabble/core/game/SWSGame.java:140-149 | the placing loop keeps the board's size and positions |
| GameRules.PlaceAllFrom | src/main/java/edu/cmu/cs/cs323/scrabble/core/game/SWSGame.java:140-149 | one round of the placing loop: a throwing round stops it, otherwise the rest follows |
| GameRules.PlaceAllUnfold | src/main/java/edu/cmu/cs/cs323/scrabble/core/game/SWSGame.java:140-149 | after a successful first round the rest of the move is placed from there |
| GameRules.PlaceStepSquare | src/main/java/edu/cmu/cs/cs323/scrabble/core/game/SWSGame.java:141-147 | a round on an empty square covers that square and leaves every other |
| GameRules.PlaceStepCovers | src/main/java/edu/cmu/cs/cs323/scrabble/core/game/SWSGame.java:141-147 | a round on an empty square succeeds: the square gets the tile and loses its special tiles into the log, and the rack loses the tile |
| GameRules.PlaceAllSucceeds | src/main/java/edu/cmu/cs/cs323/scrabble/core/game/SWSGame.java:140-149 | a move whose squares are on the board, distinct and empty is placed without exception |
| GameRules.PlaceAllKeeps | src/main/java/edu/cmu/cs/cs323/scrabble/core/game/SWSGame.java:140-149 | a square outside the move keeps its contents |
| GameRules.PlaceAllCovers | src/main/java/edu/cmu/cs/cs323/scrabble/core/game/SWSGame.java:140-149 | each placement's square ends up holding its tile and no special tile |
| GameRules.PlaceAllLogAt | src/main/java/edu/cmu/cs/cs323/scrabble/core/game/SWSGame.java:140-149 | the log gains, at each of the move's squares, the special tiles that lay there, and nothing anywhere else |
| GameRules.PlaceAllLogsOnBoard | src/main/java/edu/cmu/cs/cs323/scrabble/core/game/SWSGame.java:140-149 | off the board the log is untouched |
| GameRules.PlaceAllFillsLogs | src/main/java/edu/cmu/cs/cs323/scrabble/core/game/Turn.java:65-70 | the log never gets an empty entry, whether or not the loop throws |
| GameRules.PlaceAllRack | src/main/java/edu/cmu/cs/cs323/scrabble/core/game/SWSGame.java:145-146 | placing takes exactly the move's tiles off the rack, as far as it holds them |
| GameRules.PlaceAllOnlyIfPlaceable | src/main/java/edu/cmu/cs/cs323/scrabble/core/game/SWSGame.java:140-149 | a loop that runs to the end started from on-board, empty squares |
| GameRules.PlaceAllOkIffPlaceable | src/main/java/edu/cmu/cs/cs323/scrabble/core/game/SWSGame.java:140-149 | the placing loop runs to the end exactly when every square is on the board and free of letters |
| GameRules.PickupAll | src/main/java/edu/cmu/cs/cs323/scrabble/core/game/SWSGame.java:254-259 | the pickup loop keeps the board's size and positions |
| GameRules.PickupAllFrom | src/main/java/edu/cmu/cs/cs323/scrabble/core/game/SWSGame.java:254-259 | one round of the pickup loop: off the board it throws, otherwise the letter comes off and onto the rack |
| GameRules.PickupAllSpec | src/main/java/edu/cmu/cs/cs323/scrabble/core/game/SWSGame.java:254-259 | picking up letters at distinct lettered squares succeeds, empties exactly those letter slots and appends the letters in order |
| GameRules.PlaceSpecial | src/main/java/edu/cmu/cs/cs323/scrabble/core/board/Board.java:157-167 | placing a special tile on a snapshot keeps the board's size and positions |
| GameRules.PlaceSpecials | src/main/java/edu/cmu/cs/cs323/scrabble/core/game/SWSGame.java:267-270 | the inner re-placing loop keeps the board's size and positions |
| GameRules.PlaceSpecialsFrom | src/main/java/edu/cmu/cs/cs323/scrabble/core/game/SWSGame.java:267-270 | one round of the inner re-placing loop |
| GameRules.ReplaceAll | src/main/java/edu/cmu/cs/cs323/scrabble/core/game/SWSGame.java:266-271 | the outer re-placing loop keeps the board's size and positions |
| GameRules.ReplaceAllFrom | src/main/java/edu/cmu/cs/cs323/scrabble/core/game/SWSGame.java:266-271 | one round of the outer re-placing loop |
| GameRules.PlaceSpecialsRestores | src/main/java/edu/cmu/cs/cs323/scrabble/core/game/SWSGame.java:267-270 | re-placing tiles of distinct owners on an empty square succeeds and puts exactly them back |
| GameRules.ReplaceAllRestores | src/main/java/edu/cmu/cs/cs323/scrabble/core/game/SWSGame.java:266-271 | re-placing the log on distinct empty squares succeeds and writes each square's log back |
| GameRules.PickupAfterPlace | src/main/java/edu/cmu/cs/cs323/scrabble/core/game/SWSGame.java:254-259 | placing a move and picking its letters up leaves only the special tiles under it gone |
| GameRules.ChallengeReturnsLetters | src/main/java/edu/cmu/cs/cs323/scrabble/core/game/SWSGame.java:254-259 | after a move is placed, picking it up succeeds and appends the move's tiles to the rack in order |
| GameRules.PickupLetters | src/main/java/edu/cmu/cs/cs323/scrabble/core/game/SWSGame.java:254-259 | picking up a move's letters from squares that hold them returns them to the rack in order |
| GameRules.PlacedLetters | src/main/java/edu/cmu/cs/cs323/scrabble/core/game/SWSGame.java:140-149 | after a move is placed, each of its squares holds its tile |
| GameRules.ChallengeRestoresBoard | src/main/java/edu/cmu/cs/cs323/scrabble/core/game/SWSGame.java:252-271 | a placed move picked up and its logged special tiles re-placed, in any key order, gives back the board as it was before the move |
| GameRules.LoggedSquareIsFree | src/main/java/edu/cmu/cs/cs323/scrabble/core/game/SWSGame.java:252-271 | a logged square is empty after the pickup and its log has tiles of distinct owners |
| GameRules.RestoredSquare | src/main/java/edu/cmu/cs/cs323/scrabble/core/game/SWSGame.java:252-271 | every square comes back as it was once the log is written back |
| GameRules.ChallengeReturnsTiles | src/main/java/edu/cmu/cs/cs323/scrabble/core/game/SWSGame.java:252-259 | a rescinded move gives the player the same tiles as before it was placed |
| GameRules.KeepsOrClearsKeepsOneTilePerOwner | src/main/java/edu/cmu/cs/cs323/scrabble/core/board/Board.java:157-167 | a change that only keeps or clears special tiles keeps one tile per owner on a square |
| GameRules.PlaceStepKeepsOrClears | src/main/java/edu/cmu/cs/cs323/scrabble/core/game/SWSGame.java:141-147 | a placing round only clears special tiles |
| GameRules.PlaceAllKeepsOrClears | src/main/java/edu/cmu/cs/cs323/scrabble/core/game/SWSGame.java:140-149 | placing a move only clears special tiles, whether or not it throws |
| GameRules.PickupAllKeepsOrClears | src/main/java/edu/cmu/cs/cs323/scrabble/core/game/SWSGame.java:254-259 | picking letters up leaves every special tile where it is |
| GameRules.PlaceSpecialsKeepsOneTilePerOwner | src/main/java/edu/cmu/cs/cs323/scrabble/core/game/SWSGame.java:267-270 | re-placing tiles as the board allows keeps one tile per owner on a square |
| GameRules.ReplaceAllKeepsOneTilePerOwner | src/main/java/edu/cmu/cs/cs323/scrabble/core/game/SWSGame.java:266-271 | the outer re-placing loop keeps one tile per owner on a square |
| GameRules.PlaceAllStands | src/main/java/edu/cmu/cs/cs323/scrabble/core/game/SWSGame.java:140-149 | a move placed on empty squares from an empty log stands: its squares hold its tiles and the log lists only its squares, with distinct owners |
| GameRules.PlacedMoveStands | src/main/java/edu/cmu/cs/cs323/scrabble/core/game/SWSGame.java:140-149 | a move placed in full stands, and one tile per owner on a square still holds |
| GameRules.PutSpecialKeepsStanding | src/main/java/edu/cmu/cs/cs323/scrabble/core/game/SWSGame.java:177 | a special tile put on a square without a letter leaves a placed move standing |
| GameRules.PickupOfStandingMove | src/main/java/edu/cmu/cs/cs323/scrabble/core/game/SWSGame.java:254-259 | picking up a standing move succeeds, empties exactly its letter slots and appends its tiles in order |
| GameRules.RollbackOfStandingMove | src/main/java/edu/cmu/cs/cs323/scrabble/core/game/SWSGame.java:252-271 | rolling back a standing move succeeds in any key order and gives the rolled-back board |
| GameRules.RolledBackKeepsOneTilePerOwner | src/main/java/edu/cmu/cs/cs323/scrabble/core/game/SWSGame.java:252-271 | rolling back keeps one tile per owner on a square |
| GameRules.NextIndexIsModulus | src/main/java/edu/cmu/cs/cs323/scrabble/core/game/SWSGame.java:474 | the double remainder is the true modulus, so the index stays in range in either direction |
| GameRules.AdvanceLands | src/main/java/edu/cmu/cs/cs323/scrabble/core/game/SWSGame.java:470-482 | the advance lands inside the list on a player not waiting out a skip, and removes exactly one skip entry for each player it passes over (`Passed`), and nothing else |
| GameRules.AdvanceWithoutSkips | src/main/java/edu/cmu/cs/cs323/scrabble/core/game/SWSGame.java:470-482 | with nobody to skip the advance is one step of the modulus |
| GameRules.FirstMaximumUnique | src/main/java/edu/cmu/cs/cs323/scrabble/core/game/SWSGame.java:412-420 | only one position is the first maximum |
| GameRules.FirstMaximum | src/main/java/edu/cmu/cs/cs323/scrabble/core/game/SWSGame.java:412-420 | the scan gives the first position with the largest score |
| GameRules.Need | src/main/java/edu/cmu/cs/cs323/scrabble/core/game/SWSGame.java:462-468 | the loop draws no more than the bag holds, stops at seven or an empty bag, and draws nothing for a full rack |
| GameRules.NeedStep | src/main/java/edu/cmu/cs/cs323/scrabble/core/game/SWSGame.java:462-468 | the loop runs exactly while the rack is short and the bag not empty, one draw lowering the need by one |
| Games.CentreIndex | src/main/java/edu/cmu/cs/cs323/scrabble/core/game/SWSGame.java:112-113 | the centre index is the middle of an odd size and the lower middle of an even one |
| Games.Deal | src/main/java/edu/cmu/cs/cs323/scrabble/core/game/SWSGame.java:329-332 | after the deal every player has at least seven tiles unless the bag ran out |
| Games.DealStep | src/main/java/edu/cmu/cs/cs323/scrabble/core/game/SWSGame.java:330-332 | one more player's deal draws what that player needs from what the earlier deals left |
| Games.DefaultBoard | src/main/java/edu/cmu/cs/cs323/scrabble/core/game/SWSGame.java:66 | the game's board is a valid 15 by 15 grid with nothing on it |
| Games.DefaultBag | src/main/java/edu/cmu/cs/cs323/scrabble/core/game/SWSGame.java:65 | the game's bag holds 98 tiles, each letter as often as the default count says, nothing drawn |
| Games.DrawOnto | src/main/java/edu/cmu/cs/cs323/scrabble/core/game/SWSGame.java:464-465 | one draw moves the next tile the stream picks from the bag to the end of the rack |
| Games.AllValidMeansEach | src/main/java/edu/cmu/cs/cs323/scrabble/core/game/SWSGame.java:484-491 | the words pass exactly when the dictionary accepts each, and fail exactly when it turns one down after accepting all before it |
| Games.SwapKeepsTiles | src/main/java/edu/cmu/cs/cs323/scrabble/core/game/SWSGame.java:208-222 | a repeat-free swap keeps the rack's size and only moves tiles between rack and bag |
| Games.Game.constructor | src/main/java/edu/cmu/cs/cs323/scrabble/core/game/SWSGame.java:99-115 | the new game has a bare default board, the full default bag, the five default tiles at their prices, no turn yet, clockwise order |
| Games.Game.CurrentPlayer | src/main/java/edu/cmu/cs/cs323/scrabble/core/game/SWSGame.java:122-124 | before the first turn there is no turn and Java dereferences null; otherwise the turn's player |
| Games.Game.CurrentPlayerIsIndexed | src/main/java/edu/cmu/cs/cs323/scrabble/core/game/SWSGame.java:122-124 | once turns have begun the current player is the one at the player index |
| Games.Game.LastMove | src/main/java/edu/cmu/cs/cs323/scrabble/core/game/SWSGame.java:349-351 | the move played this turn, null before the first turn throwing |
| Games.Game.ViewOfSquare | src/main/java/edu/cmu/cs/cs323/scrabble/core/game/SWSGame.java:395-404 | the square as the player sees it, as `PlayerView` states |
| Games.Game.CanSwapTiles | src/main/java/edu/cmu/cs/cs323/scrabble/core/game/SWSGame.java:228-232 | before the first turn it throws; otherwise true exactly for the turn's player with a bag of at least seven tiles while the letter gate is open |
| Games.Game.SkipTurn | src/main/java/edu/cmu/cs/cs323/scrabble/core/game/SWSGame.java:358-360 | the player is queued to be passed over once more |
| Games.Game.ReverseTurnDirection | src/main/java/edu/cmu/cs/cs323/scrabble/core/game/SWSGame.java:342-344 | the direction becomes the other one |
| Games.Game.AdvancePlayer | src/main/java/edu/cmu/cs/cs323/scrabble/core/game/SWSGame.java:470-482 | with no players the remainder by zero throws; otherwise the index lands where `AdvanceLands` says and the player there gets a fresh turn |
| Games.Game.AdvancedIsValid | src/main/java/edu/cmu/cs/cs323/scrabble/core/game/SWSGame.java:479 | a fresh turn for the player at the index restores the game invariant |
| Games.Game.DrawTilesForPlayer | src/main/java/edu/cmu/cs/cs323/scrabble/core/game/SWSGame.java:462-468 | the player draws the stream's picks until seven tiles or an empty bag, tiles only moving from bag to rack |
| Games.Game.HighestScoringPlayer | src/main/java/edu/cmu/cs/cs323/scrabble/core/game/SWSGame.java:412-420 | with no players `get(0)` throws; otherwise the earliest of the top scorers |
| Games.Game.DealOne | src/main/java/edu/cmu/cs/cs323/scrabble/core/game/SWSGame.java:330-332 | one round of the dealing loop follows `DealStep` |
| Games.Game.DealAll | src/main/java/edu/cmu/cs/cs323/scrabble/core/game/SWSGame.java:330-332 | the dealing loop deals as `Deal` says |
| Games.Game.SetupGame | src/main/java/edu/cmu/cs/cs323/scrabble/core/game/SWSGame.java:329-335 | every player draws a full rack unless the bag runs out, then the first player not skipped gets the first turn; no players throws |
| Games.Game.FirstTurn | src/main/java/edu/cmu/cs/cs323/scrabble/core/game/SWSGame.java:333-334 | the index is set to -1 and the advance lands on the first player when nobody is skipped |
| Games.Game.LogTriggered | src/main/java/edu/cmu/cs/cs323/scrabble/core/game/SWSGame.java:142-144 | each special tile picked up is logged, in order, at its position |
| Games.Game.Uncover | src/main/java/edu/cmu/cs/cs323/scrabble/core/game/SWSGame.java:141-144 | off the board it throws; otherwise the square's special tiles move into the log |
| Games.Game.Cover | src/main/java/edu/cmu/cs/cs323/scrabble/core/game/SWSGame.java:145-147 | the tile leaves the rack, then lands on the square, which throws for a lettered or off-board square |
| Games.Game.PlaceOne | src/main/java/edu/cmu/cs/cs323/scrabble/core/game/SWSGame.java:141-147 | one round of the placing loop follows `PlaceStep` |
| Games.Game.PlaceLetters | src/main/java/edu/cmu/cs/cs323/scrabble/core/game/SWSGame.java:140-149 | the placing loop follows `PlaceAll` |
| Games.Game.Play | src/main/java/edu/cmu/cs/cs323/scrabble/core/game/SWSGame.java:138-153 | past the checks the letter gate closes and the move is placed and scored as the value-level play says, keeping the invariant even when placing or scoring throws |
| Games.Game.PlaceAndScore | src/main/java/edu/cmu/cs/cs323/scrabble/core/game/SWSGame.java:140-153 | the tiles go down, then the move is scored and recorded; the invariant holds whether or not either step throws |
| Games.Game.Settle | src/main/java/edu/cmu/cs/cs323/scrabble/core/game/SWSGame.java:150-153 | a throwing placement stops the play with the invariant intact (it only cleared special tiles); otherwise the move is scored and recorded |
| Games.Game.Finish | src/main/java/edu/cmu/cs/cs323/scrabble/core/game/SWSGame.java:150-153 | the total score is computed and the move recorded, unless scoring throws; the invariant holds either way |
| Games.Game.Record | src/main/java/edu/cmu/cs/cs323/scrabble/core/game/SWSGame.java:150-153 | unless scoring threw, the total is added and the move recorded; the invariant holds either way |
| Games.Game.Enter | src/main/java/edu/cmu/cs/cs323/scrabble/core/game/SWSGame.java:150-152 | the player's score grows by the total and the move is recorded |
| Games.Game.PlaceMove | src/main/java/edu/cmu/cs/cs323/scrabble/core/game/SWSGame.java:134-157 | failed checks change nothing; otherwise the gate closes and the move is placed and scored, with `PlaceAllOkIffPlaceable` and `ScoreLoopIsLastWord` describing the outcome; the invariant holds afterwards on every path, including a throw from a lettered square or from scoring |
| Games.Game.Act | src/main/java/edu/cmu/cs/cs323/scrabble/core/game/SWSGame.java:134-157 | the play after its checks, keeping the invariant on every path |
| Games.Game.CheckMove | src/main/java/edu/cmu/cs/cs323/scrabble/core/game/SWSGame.java:135-137 | the letter gate, `isValidMove` and the centre rule, in order |
| Games.Game.FirstPlayCoversCentre | src/main/java/edu/cmu/cs/cs323/scrabble/core/game/SWSGame.java:427-429 | a first move that passes the checks lays two or more held tiles, one of them on the centre square (7, 7) |
| Games.Game.SpecialCheckMeans | src/main/java/edu/cmu/cs/cs323/scrabble/core/game/SWSGame.java:167-170 | the checks pass exactly for the current player holding the tile with the special gate open on an on-board square without their tile, and throw before the first turn or off the board |
| Games.Game.PlaceSpecialTile | src/main/java/edu/cmu/cs/cs323/scrabble/core/game/SWSGame.java:166-183 | failed checks change nothing; otherwise the gate closes, the tile leaves the hand and goes down as the board allows |
| Games.Game.Spend | src/main/java/edu/cmu/cs/cs323/scrabble/core/game/SWSGame.java:173-177 | the gate closes, one copy of the tile leaves the hand and the board places it |
| Games.Game.Lay | src/main/java/edu/cmu/cs/cs323/scrabble/core/game/SWSGame.java:177 | the board places the special tile, keeping a placed move standing |
| Games.Game.BuySpecialTile | src/main/java/edu/cmu/cs/cs323/scrabble/core/game/SWSGame.java:191-200 | an unknown identifier changes nothing; before the first turn it throws; otherwise the special gate closes, whoever asks, and the buyer gains the price and a fresh tile of that kind |
| Games.Game.SwapTiles | src/main/java/edu/cmu/cs/cs323/scrabble/core/game/SWSGame.java:208-222 | failed checks change nothing; otherwise the gate closes, the offered tiles leave the rack, the bag swaps them and the drawn tiles join the rack |
| Games.Game.Swap | src/main/java/edu/cmu/cs/cs323/scrabble/core/game/SWSGame.java:213-217 | the letter gate closes and the exchange follows |
| Games.Game.Exchange | src/main/java/edu/cmu/cs/cs323/scrabble/core/game/SWSGame.java:215-217 | the rack loses the offered tiles and gains the drawn ones; more than seven throw after the removal; a repeat-free swap keeps the rack's size and all tiles |
| Games.Game.AllWordsValid | src/main/java/edu/cmu/cs/cs323/scrabble/core/game/SWSGame.java:484-491 | the live loop gives what `AllValidMeansEach` characterises |
| Games.Game.ChallengeLastMove | src/main/java/edu/cmu/cs/cs323/scrabble/core/game/SWSGame.java:244-279 | before the first turn it throws; a closed gate changes nothing; otherwise the gate closes and the move is judged and skipped or rescinded |
| Games.Game.Contest | src/main/java/edu/cmu/cs/cs323/scrabble/core/game/SWSGame.java:248-275 | the words are judged, then the challenger skipped or the move rescinded |
| Games.Game.Judge | src/main/java/edu/cmu/cs/cs323/scrabble/core/game/SWSGame.java:248-249 | the move's words on the live board put to the dictionary |
| Games.Game.Decide | src/main/java/edu/cmu/cs/cs323/scrabble/core/game/SWSGame.java:249-275 | an exception stops the challenge, a pass queues the challenger to be skipped, a failure rescinds the move |
| Games.Game.Overturn | src/main/java/edu/cmu/cs/cs323/scrabble/core/game/SWSGame.java:252-271 | the move is scored once more and rescinded with that total |
| Games.Game.Retract | src/main/java/edu/cmu/cs/cs323/scrabble/core/game/SWSGame.java:252-271 | the stakes become those of the rescinded move |
| Games.Game.Rescind | src/main/java/edu/cmu/cs/cs323/scrabble/core/game/SWSGame.java:252-271 | the mover loses the total and gets the tiles back in order, the board is rolled back, and the turn forgets its log and move |
| Games.Game.Forget | src/main/java/edu/cmu/cs/cs323/scrabble/core/game/SWSGame.java:253-264 | the mover loses the total and the turn forgets its log and move; the board is untouched |
| Games.Game.Restore | src/main/java/edu/cmu/cs/cs323/scrabble/core/game/SWSGame.java:254-271 | the move's letters go back onto the rack and the logged special tiles back onto their squares |
| Games.Game.ReturnLetters | src/main/java/edu/cmu/cs/cs323/scrabble/core/game/SWSGame.java:255-259 | the live pickup loop follows `PickupAll` |
| Games.Game.ReturnOne | src/main/java/edu/cmu/cs/cs323/scrabble/core/game/SWSGame.java:256-258 | one pickup round follows `PickupAllFrom` |
| Games.Game.PutBack | src/main/java/edu/cmu/cs/cs323/scrabble/core/game/SWSGame.java:266-271 | the live outer re-placing loop follows `ReplaceAll` |
| Games.Game.PutBackAt | src/main/java/edu/cmu/cs/cs323/scrabble/core/game/SWSGame.java:267-270 | the live inner re-placing loop follows `PlaceSpecials` |
| Games.Game.PerformAction | src/main/java/edu/cmu/cs/cs323/scrabble/core/game/SWSGame.java:304 | one live tile action changes board, direction and scores as the `Trigger` step does |
| Games.Game.Turnabout | src/main/java/edu/cmu/cs/cs323/scrabble/core/specialtile/defaults/ReverseSpecialTile.java:40-43 | the reverse tile flips the live direction as the step does |
| Games.Game.Negate | src/main/java/edu/cmu/cs/cs323/scrabble/core/specialtile/defaults/NegativePointsSpecialTile.java:42-52 | the live negate action is the negate step |
| Games.Game.Steal | src/main/java/edu/cmu/cs/cs323/scrabble/core/specialtile/defaults/StealScoreSpecialTile.java:48-63 | the live steal action is the steal step |
| Games.Game.Explode | src/main/java/edu/cmu/cs/cs323/scrabble/core/specialtile/defaults/BoomSpecialTile.java:46-152 | the live boom action is the boom step |
| Games.Game.FireAt | src/main/java/edu/cmu/cs/cs323/scrabble/core/game/SWSGame.java:303-305 | the live inner loop follows `TriggerList` |
| Games.Game.FireTile | src/main/java/edu/cmu/cs/cs323/scrabble/core/game/SWSGame.java:303-305 | one round of the live inner loop follows `TriggerListFrom` |
| Games.Game.FireAll | src/main/java/edu/cmu/cs/cs323/scrabble/core/game/SWSGame.java:301-306 | the live outer loop follows `TriggerLog` |
| Games.Game.FireSquare | src/main/java/edu/cmu/cs/cs323/scrabble/core/game/SWSGame.java:302-306 | one round of the live outer loop follows `TriggerLogFrom` |
| Games.Game.EndTurn | src/main/java/edu/cmu/cs/cs323/scrabble/core/game/SWSGame.java:287-314 | before the first turn it throws, changing nothing; anyone but the turn's player is ignored, leaving board, bag, rack and scores as they were; otherwise the turn ends, a played move marks the first move taken, every logged tile acts as `TriggerLog` says, and if a tile throws, rack, bag and turn are left as they were; else the player draws back to seven and the game passes on unless the bag is empty |
| Games.Game.Close | src/main/java/edu/cmu/cs/cs323/scrabble/core/game/SWSGame.java:290-313 | the turn ends, the tiles act, then the player draws and play passes on; if a tile throws, rack, bag, turn and player index are left as they were |
| Games.Game.Shut | src/main/java/edu/cmu/cs/cs323/scrabble/core/game/SWSGame.java:290-298 | the end gate closes and a played move marks the first move taken |
| Games.Game.Conclude | src/main/java/edu/cmu/cs/cs323/scrabble/core/game/SWSGame.java:301-313 | the tiles act; an exception stops there, leaving rack, bag, turn and player index as they were; otherwise the player draws and play passes on |
| Games.Game.Fire | src/main/java/edu/cmu/cs/cs323/scrabble/core/game/SWSGame.java:301-306 | the live trigger loop gives the board, direction and score changes of `TriggerLog` |
| Games.Game.Replenish | src/main/java/edu/cmu/cs/cs323/scrabble/core/game/SWSGame.java:307-312 | the current player draws back to seven, then the game ends on an empty bag or advances |
| Games.Game.Pass | src/main/java/edu/cmu/cs/cs323/scrabble/core/game/SWSGame.java:308-312 | on an empty bag nothing moves on; otherwise the next player gets the turn |
| Turns.Turn.constructor | src/main/java/edu/cmu/cs/cs323/scrabble/core/game/Turn.java:55-57 | a new turn has taken nothing, played nothing and logged nothing |
| Turns.Turn.AddTriggeredSpecialTile | src/main/java/edu/cmu/cs/cs323/scrabble/core/game/Turn.java:65-70 | the tile is appended to the list at the position, created when missing, other lists unchanged |
| Turns.Turn.ClearTriggeredSpecialTiles | src/main/java/edu/cmu/cs/cs323/scrabble/core/game/Turn.java:75-77 | the log becomes empty |
| Turns.Turn.TakeLetterAction | src/main/java/edu/cmu/cs/cs323/scrabble/core/game/Turn.java:104-106 | the letter gate closes, whoever asks |
| Turns.Turn.TakeSpecialAction | src/main/java/edu/cmu/cs/cs323/scrabble/core/game/Turn.java:124-126 | the special gate closes, whoever asks |
| Turns.Turn.TakeChallengeAction | src/main/java/edu/cmu/cs/cs323/scrabble/core/game/Turn.java:141-143 | the challenge gate closes, whoever asks |
| Turns.Turn.TakeEndAction | src/main/java/edu/cmu/cs/cs323/scrabble/core/game/Turn.java:158-162 | the turn ends only when its own player asks |
| Turns.Turn.SetPlayedMove | src/main/java/edu/cmu/cs/cs323/scrabble/core/game/Turn.java:169-171 | the played move becomes the given one, null included |
| Turns.EndedTurnAllowsNothing | src/main/java/edu/cmu/cs/cs323/scrabble/core/game/Turn.java:95-151 | once a turn is over no one may take any action on it |
| Turns.GatesSeparatePlayers | src/main/java/edu/cmu/cs/cs323/scrabble/core/game/Turn.java:95-151 | the letter, special and end gates admit only the turn's player; the challenge gate admits only someone else, and only after a move |
| TileBags.RemoveAt | src/main/java/edu/cmu/cs/cs323/scrabble/core/letters/TileBag.java:96-98 | `ArrayList.remove(int)` shortens the list by one |
| TileBags.RemoveAtCounts | src/main/java/edu/cmu/cs/cs323/scrabble/core/letters/TileBag.java:96-98 | the removed tile and the rest together are the list before |
| TileBags.Reduce | src/main/java/edu/cmu/cs/cs323/scrabble/core/letters/TileBag.java:96-98 | the bounded draw index lies below the bag size |
| TileBags.ReduceIsRemainder | src/main/java/edu/cmu/cs/cs323/scrabble/core/letters/TileBag.java:96-98 | the bounded draw index is the stream entry modulo the bag size |
| TileBags.Pick | src/main/java/edu/cmu/cs/cs323/scrabble/core/letters/TileBag.java:96-98 | the index drawn lies inside the bag |
| TileBags.Draws | src/main/java/edu/cmu/cs/cs323/scrabble/core/letters/TileBag.java:68-72 | n draws take n tiles and leave the rest |
| TileBags.DrawsPermutes | src/main/java/edu/cmu/cs/cs323/scrabble/core/letters/TileBag.java:68-72 | drawn and left together are the bag: no tile is created or lost |
| TileBags.DrawsSplit | src/main/java/edu/cmu/cs/cs323/scrabble/core/letters/TileBag.java:68-72 | n draws are i draws followed by n - i draws from what those left |
| TileBags.DrawOneMore | src/main/java/edu/cmu/cs/cs323/scrabble/core/letters/TileBag.java:68-72 | one more draw takes the tile the stream picks from what is left |
| TileBags.TileBag.constructor | src/main/java/edu/cmu/cs/cs323/scrabble/core/letters/TileBag.java:22-25 | the bag holds a copy of the list and the stream, nothing drawn |
| TileBags.TileBag.DrawTile | src/main/java/edu/cmu/cs/cs323/scrabble/core/letters/TileBag.java:96-98 | an empty bag throws and changes nothing; otherwise the picked tile is removed and returned |
| TileBags.TileBag.DrawMany | src/main/java/edu/cmu/cs/cs323/scrabble/core/letters/TileBag.java:68-72 | the drawing loop gives the tiles `Draws` says, in the order drawn |
| TileBags.TileBag.SwapTiles | src/main/java/edu/cmu/cs/cs323/scrabble/core/letters/TileBag.java:56-76 | refuses, unchanged, a bag below seven, an empty offer or more than seven; otherwise returns as many tiles as offered, drawn before the old tiles go in, so the bag keeps its size and no tile is lost |
| TileBags.NumberOfTiles | src/main/java/edu/cmu/cs/cs323/scrabble/core/letters/DefaultTileBag.java:58-89 | every letter appears between 1 and 12 times, once exactly for K J X Q Z |
| TileBags.ExpandedCounts | src/main/java/edu/cmu/cs/cs323/scrabble/core/letters/DefaultTileBag.java:12-18 | expanding distinct letters gives each exactly its count |
| TileBags.AllLettersDistinct | src/main/java/edu/cmu/cs/cs323/scrabble/core/letters/Letter.java:6-32 | `values()` lists each letter once |
| TileBags.DefaultCountsSumTo98 | src/main/java/edu/cmu/cs/cs323/scrabble/core/letters/DefaultTileBag.java:46-47 | the default counts sum to 98, as documented |
| TileBags.DefaultLetters | src/main/java/edu/cmu/cs/cs323/scrabble/core/letters/DefaultTileBag.java:12-18 | the default list holds 98 tiles, each letter exactly its count |
| TileBags.BuildDefaultTiles | src/main/java/edu/cmu/cs/cs323/scrabble/core/letters/DefaultTileBag.java:12-18 | the static initialiser builds fresh, distinct tiles letter by letter in enum order |
| TileBags.Create | src/main/java/edu/cmu/cs/cs323/scrabble/core/letters/DefaultTileBag.java:26-28 | the bag holds a copy of the default list and the stream, nothing drawn |
| Stores.IdentifierInjective | src/main/java/edu/cmu/cs/cs323/scrabble/core/specialtile/defaults/DefaultSpecialTileFactories.java:11-29 | no two default factories share an identifier, so registering all of them cannot clash |
| Stores.DefaultFactoriesAreAllKinds | src/main/java/edu/cmu/cs/cs323/scrabble/core/specialtile/defaults/DefaultSpecialTileFactories.java:10-30 | every kind is registered, exactly once |
| Stores.DefaultPrice | src/main/java/edu/cmu/cs/cs323/scrabble/core/game/SWSGame.java:54-62 | every default price lies between 10 and 25 |
| Stores.CreateTile | src/main/java/edu/cmu/cs/cs323/scrabble/core/specialtile/defaults/DefaultSpecialTileFactories.java:13-29 | a factory creates a fresh tile of its kind owned by the buyer |
| Stores.SpecialTileStoreBuilder.constructor | src/main/java/edu/cmu/cs/cs323/scrabble/core/specialtile/store/SpecialTileStoreBuilder.java:17-18 | a new builder has nothing registered and is consistent |
| Stores.SpecialTileStoreBuilder.RegisterSpecialTileFactory | src/main/java/edu/cmu/cs/cs323/scrabble/core/specialtile/store/SpecialTileStoreBuilder.java:28-37 | refuses a known identifier, then a price below 1, changing nothing; otherwise files factory and price under its identifier, keeping the builder consistent |
| Stores.SpecialTileStoreBuilder.UnregisterSpecialTileFactory | src/main/java/edu/cmu/cs/cs323/scrabble/core/specialtile/store/SpecialTileStoreBuilder.java:45-51 | refuses an unknown identifier, changing nothing; otherwise drops it from both maps |
| Stores.SpecialTileStoreBuilder.Construct | src/main/java/edu/cmu/cs/cs323/scrabble/core/specialtile/store/SpecialTileStoreBuilder.java:58-60 | the store shares the builder's maps |
| Stores.SpecialTileStore.constructor | src/main/java/edu/cmu/cs/cs323/scrabble/core/specialtile/store/SpecialTileStore.java:29-32 | the store keeps the given maps |
| Stores.SpecialTileStore.PriceOfSpecialTile | src/main/java/edu/cmu/cs/cs323/scrabble/core/specialtile/store/SpecialTileStore.java:53-58 | throws exactly for an unknown identifier; otherwise the registered price, at least 1 |
| Stores.SpecialTileStore.BuySpecialTile | src/main/java/edu/cmu/cs/cs323/scrabble/core/specialtile/store/SpecialTileStore.java:72-80 | throws, changing nothing, for an unknown identifier; otherwise ADDS the price to the buyer's score and appends one fresh tile of that kind owned by the buyer |
| Stores.SpecialTileStore.PurchasableTileDescriptions | src/main/java/edu/cmu/cs/cs323/scrabble/core/specialtile/store/SpecialTileStore.java:87-89 | every registered identifier exactly once |
| Stores.DefaultStore | src/main/java/edu/cmu/cs/cs323/scrabble/core/game/SWSGame.java:103-108 | registering the defaults never fails and sells exactly the five default tiles at their prices |
| DefaultBoards.KindAtIsMembership | src/main/java/edu/cmu/cs/cs323/scrabble/core/board/DefaultBoard.java:30-58 | a square's kind is exactly membership in its set, so the order of the tests never matters |
| DefaultBoards.LayoutDisjoint | src/main/java/edu/cmu/cs/cs323/scrabble/core/board/DefaultBoard.java:63-151 | no position is in two of the four sets |
| DefaultBoards.DoubleLetterLayout | src/main/java/edu/cmu/cs/cs323/scrabble/core/board/DefaultBoard.java:63-90 | 24 double-letter squares, all on the 15 by 15 grid |
| DefaultBoards.TripleLetterLayout | src/main/java/edu/cmu/cs/cs323/scrabble/core/board/DefaultBoard.java:95-110 | 12 triple-letter squares, all on the grid |
| DefaultBoards.DoubleWordLayout | src/main/java/edu/cmu/cs/cs323/scrabble/core/board/DefaultBoard.java:115-135 | 17 double-word squares, all on the grid |
| DefaultBoards.TripleWordLayout | src/main/java/edu/cmu/cs/cs323/scrabble/core/board/DefaultBoard.java:140-151 | 8 triple-word squares, all on the grid |
| DefaultBoards.CentreDoublesWord | src/main/java/edu/cmu/cs/cs323/scrabble/core/board/DefaultBoard.java:115-135 | the centre square (7, 7), which the first move must cover, doubles the word |
| DefaultBoards.Create | src/main/java/edu/cmu/cs/cs323/scrabble/core/board/DefaultBoard.java:30-58 | a 15 by 15 board with a fresh, empty square of the layout's kind at every position and nowhere else |

## Left out

- Listeners: `SWSGameListener`, `addSWSGameListener`/`removeSWSGameListener` and every `notify*` call are not modelled. An operation that only notifies an error is an `Ok` that changes nothing.
- EndTurn: when the bag runs out, `highestScoringPlayer`'s winner only goes to the listeners. `Games.Game.HighestScoringPlayer` is modelled on its own, and the end of the game only stops play passing on.
- The dictionary: `TextFileValidator`, `WordValidator` and `DummyValidator` are not part of this model. Word validity is the `isValidWord` parameter, which may also throw.
- Special tile factories: only the five built-in kinds (`SpecialKind`) are modelled. A factory of any other class given to `registerSpecialTileFactory` is not, because the store's factories are the `SpecialKind` values.
- Randomness: `java.util.Random` is the `random: nat -> nat` stream with a `draws` counter. `nextInt(size)` is `random(draws) % size`, so there is no claim about uniformity.
- Defaults made without a generator: the `TileBag(List)` constructor and `DefaultTileBag.create()`, which make their own `new Random()`, are modelled only through the overloads that take the stream.
- Hash-map order: a move's placements are a sequence, and `Turn`'s log is walked in the order of an `order` argument holding its keys. Any order is allowed, and the challenge round-trip is proved for all of them.
- Integer width: scores, prices and word scores are unbounded integers, so Java's 32-bit `int` overflow is not modelled. `Position.hashCode` uses the same unbounded arithmetic, which agrees with Java's for coordinates of board size.
- Java `assert`s: the ones at `SWSGame.java:296`, `Move.java:123`, `NegativePointsSpecialTile.java:44` and `StealScoreSpecialTile.java:50` are not modelled. Java runs with assertions disabled by default, and the model follows the code that way. The first and second are dropped. When the last move is null, the effect tiles throw the `NullPointer` error that follows the two effect-tile asserts.
- Floating point: `Position.distance` returns a `double` square root. CompareTo: it compares the squared integer distance instead, which orders positions the same way.
- Skip turn: `SkipTurnSpecialTile` is not part of this model. Its identifier is an opaque string that `SkipIdentifierDistinct` requires to differ from the other four. Its `performAction` returns the `Unmodelled` error, which stops the trigger loop at that tile.
- Games.Game.constructor, Stores.IdentifierInjective, Stores.DefaultStore, Stores.RegisterDefault: these require `SkipIdentifierDistinct`, because the skip tile's identifier is not visible here.
- Triple-letter squares: `TripleLetterScoreSquare` is not part of this model. Its kind multiplies the letter by 3 and the word by 1, by analogy with the other four square classes.
- The read-only copies: `Turn.triggeredSpecialTiles()`, `Player.letterTiles()` and the square views hand out Java collections. The copy versus alias distinction of these is captured only by value semantics: the model's log and lists are values, so no caller can change a turn's log through them.
- WithTile: Java's `letterTiles().add(null)` would append a null when a picked-up square held no letter. The model appends nothing instead. This never happens for a move that stands on the board, which is the only case `Games.Game.Restore` reaches (`GameRules.PickupOfStandingMove`, `GameRules.RollbackOfStandingMove`).
- Exchange: the claim that the rack keeps its size and that tiles only move between rack and bag is stated for a repeat-free rack and offer. With repeated tiles, `removeAll` drops every copy.
- Forget: `challengeLastMove` lowers the score first, then picks the letters up, then clears the log and the move. The model makes the score, log and move updates together, before the tiles move. None of them reads the board or the others.
- Rendering: `Board.toString`, `rowDivider`, `Position.toString` and the GUI classes are not modelled.
- Shared default tiles: `DefaultTileBag.DEFAULT_TILES` is one static list that every bag copies, whereas the model builds the default tiles fresh for each game. The bags therefore do not share tile objects.
- `SWSGame.tileStore()` and the plain getters (`Player.getScore`, `name`, `Move.upperLeft`, `PlayedWord.score`, …) are field reads in the model, with no member of their own.
