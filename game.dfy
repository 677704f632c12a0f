/**
 * The game (game/SWSGame.java): the players, the turn cycle, the board, the
 * bag and the store, and the actions players take. An action Java turns
 * down goes to `notifyErrorOccured`, which does nothing, so here it is a
 * no-op that returns `Ok`; an exception that escapes is an `Err`, with the
 * state as far as Java had changed it. Each action's `ensures` ties the new
 * state to value-level functions of modules GameRules and EffectRules
 * (placing and rolling back a move, the trigger log's folds, the turn
 * cycle's index arithmetic) and to `Valid`, the invariant it keeps.
 */
module Games {
  import opened Wrappers
  import opened JavaInts
  import opened Letters
  import opened Geometry
  import opened Players
  import opened Squares
  import opened PlayedWords
  import opened Moves
  import opened BoardStates
  import opened Boards
  import opened Scoring
  import opened SpecialEffects
  import opened Turns
  import opened TileBags
  import opened Stores
  import DefaultBoards
  import opened GameRules
  import opened EffectRules

  /** `PLAYER_TILE_LIMIT`: the rack size a draw fills up to. */
  const PlayerTileLimit: nat := 7

  /** `n / 2 - 1 + n % 2`: the middle index of an odd size, the lower of the two middle ones of an even size. */
  function CentreIndex(n: nat): (c: nat)
    requires n > 0
    ensures c < n
    ensures n % 2 == 1 ==> c == (n - 1) - c
    ensures n % 2 == 0 ==> (n - 1) - c == c + 1
  {
    n / 2 - 1 + n % 2
  }

  /** `centerPosition`: the middle square of the default board, which a first move must cover. */
  const CenterPosition: Position := Position(CentreIndex(DefaultBoards.Height), CentreIndex(DefaultBoards.Width))

  /** The step `advancePlayer` takes through the player list in each direction. */
  function Delta(d: TurnDirection): int
  {
    if d == CW then 1 else -1
  }

  /** A turn on which nothing has happened yet. */
  predicate Untouched(t: Turn)
    reads t
  {
    && !t.letterActionTaken && !t.specialActionTaken && !t.challengeActionTaken && !t.endActionTaken
    && t.playedMove == None && t.triggered == map[]
  }

  /** The scores of the players of `ps`. */
  ghost function ScoreMap(ps: set<Player>): map<Player, int>
    reads ps
  {
    map p | p in ps :: p.score
  }

  /** The players' scores, in list order. */
  function ScoresOf(ps: seq<Player>): (s: seq<int>)
    reads set i | 0 <= i < |ps| :: ps[i]
    ensures |s| == |ps|
    ensures forall i :: 0 <= i < |ps| ==> s[i] == ps[i].score
    decreases |ps|
  {
    if ps == [] then [] else [ps[0].score] + ScoresOf(ps[1..])
  }

  /** The players' racks, by player. */
  function RacksOf(ps: seq<Player>): (r: map<Player, seq<LetterTile>>)
    reads set i | 0 <= i < |ps| :: ps[i]
    ensures forall i :: 0 <= i < |ps| ==> ps[i] in r && r[ps[i]] == ps[i].letterTiles
  {
    map p | p in ps :: p.letterTiles
  }

  /** The racks, the bag and the number of draws made, while `setupGame` deals. */
  datatype Dealing = Dealing(racks: map<Player, seq<LetterTile>>, bag: seq<LetterTile>, draws: nat)

  /**
   * `setupGame`'s loop as a value: each player in list order draws until
   * their rack holds seven tiles or the bag is empty. A player listed twice
   * draws twice into the same rack. Afterwards every player has a full rack
   * unless the bag ran out.
   */
  function Deal(ps: seq<Player>, d0: Dealing, random: nat -> nat): (d: Dealing)
    requires forall i :: 0 <= i < |ps| ==> ps[i] in d0.racks
    ensures d.racks.Keys == d0.racks.Keys
    ensures |d.bag| <= |d0.bag|
    ensures forall i :: 0 <= i < |ps| ==> |d.racks[ps[i]]| >= PlayerTileLimit || d.bag == []
    decreases |ps|
  {
    if ps == [] then d0
    else
      var last := |ps| - 1;
      var prev := Deal(ps[..last], d0, random);
      assert forall i :: 0 <= i < last ==> ps[..last][i] == ps[i];
      var p := ps[last];
      var rack := prev.racks[p];
      var n := Need(|rack|, |prev.bag|, PlayerTileLimit);
      var drawn := Draws(prev.bag, random, prev.draws, n);
      Dealing(prev.racks[p := rack + drawn.0], drawn.1, prev.draws + n)
  }

  /** One more player's deal, on top of the deal of the players before them. */
  lemma DealStep(ps: seq<Player>, i: nat, d0: Dealing, random: nat -> nat)
    requires i < |ps| && forall j :: 0 <= j < |ps| ==> ps[j] in d0.racks
    ensures var prev := Deal(ps[..i], d0, random);
      var rack := prev.racks[ps[i]];
      var n := Need(|rack|, |prev.bag|, PlayerTileLimit);
      var drawn := Draws(prev.bag, random, prev.draws, n);
      Deal(ps[..i + 1], d0, random) == Dealing(prev.racks[ps[i] := rack + drawn.0], drawn.1, prev.draws + n)
  {
    assert ps[..i + 1][..i] == ps[..i];
  }

  /** Nothing on any square: no letter and no special tile. */
  ghost predicate Bare(b: BoardState)
  {
    forall p :: p in b.squares ==> b.squares[p].letterTile == None && b.squares[p].specialTiles == []
  }

  /**
   * `DefaultBoard.create()`, seen from the game: a valid 15 by 15 board with
   * nothing on it (the kinds of its squares are stated by `DefaultBoards.Create`).
   */
  method DefaultBoard() returns (board: Board)
    ensures fresh(board) && board.Valid()
    ensures board.width == DefaultBoards.Width && board.height == DefaultBoards.Height
    ensures Grid(board.Snapshot()) && Bare(board.Snapshot()) && OneTilePerOwner(board.Snapshot())
  {
    board := DefaultBoards.Create();
  }

  /** `DefaultTileBag.create()`: a bag over the 98 default tiles, nothing drawn yet. */
  method DefaultBag(random: nat -> nat) returns (bag: TileBag)
    ensures fresh(bag) && bag.random == random && bag.draws == 0
    ensures |bag.tiles| == 98 && forall l :: multiset(LettersOfTiles(bag.tiles))[l] == NumberOfTiles(l)
  {
    var tiles := BuildDefaultTiles();
    DefaultLetters();
    bag := TileBags.Create(tiles, random);
  }

  /**
   * One round of `drawTilesForPlayer`'s loop: `player.letterTiles().add(tileBag.drawTile())`
   * after `i` earlier draws from a bag that held `tiles0`.
   */
  method DrawOnto(bag: TileBag, player: Player, ghost rack0: seq<LetterTile>, ghost tiles0: seq<LetterTile>,
                  ghost from: nat, ghost i: nat)
    requires i < |tiles0|
    requires player.letterTiles == rack0 + Draws(tiles0, bag.random, from, i).0
    requires bag.tiles == Draws(tiles0, bag.random, from, i).1 && bag.draws == from + i
    modifies bag`tiles, bag`draws, player`letterTiles
    ensures player.letterTiles == rack0 + Draws(tiles0, bag.random, from, i + 1).0
    ensures bag.tiles == Draws(tiles0, bag.random, from, i + 1).1 && bag.draws == from + i + 1
    ensures player.score == old(player.score) && player.specialTiles == old(player.specialTiles)
  {
    DrawOneMore(tiles0, bag.random, from, i);
    var t := bag.DrawTile();
    player.letterTiles := player.letterTiles + [t.value];
  }

  /**
   * `allWordsValid`: asks the dictionary about each word in order and
   * answers false at the first word it turns down; a check that throws
   * throws.
   */
  function AllValid(words: seq<Option<PlayedWord>>, isValidWord: Option<PlayedWord> -> Result<bool>): Result<bool>
    decreases |words|
  {
    if words == [] then Ok(true)
    else
      var v := isValidWord(words[0]);
      if v.Err? then v
      else if !v.value then Ok(false)
      else AllValid(words[1..], isValidWord)
  }

  /**
   * The words pass exactly when the dictionary accepts every one of them,
   * and fail exactly when it turns one down after accepting all before it.
   */
  lemma {:induction false} AllValidMeansEach(words: seq<Option<PlayedWord>>, isValidWord: Option<PlayedWord> -> Result<bool>)
    ensures AllValid(words, isValidWord) == Ok(true) <==>
      forall i :: 0 <= i < |words| ==> isValidWord(words[i]) == Ok(true)
    ensures AllValid(words, isValidWord) == Ok(false) <==>
      exists i :: 0 <= i < |words| && isValidWord(words[i]) == Ok(false) &&
        forall j :: 0 <= j < i ==> isValidWord(words[j]) == Ok(true)
    decreases |words|
  {
    if words != [] {
      var rest := words[1..];
      AllValidMeansEach(rest, isValidWord);
      assert forall i :: 1 <= i < |words| ==> words[i] == rest[i - 1];
      match isValidWord(words[0])
      case Err(_) =>
      case Ok(accepted) =>
      if accepted {
        if AllValid(rest, isValidWord) == Ok(false) {
          var k :| 0 <= k < |rest| && isValidWord(rest[k]) == Ok(false) &&
            forall j :: 0 <= j < k ==> isValidWord(rest[j]) == Ok(true);
          assert isValidWord(words[k + 1]) == Ok(false);
          assert forall j :: 0 <= j < k + 1 ==> isValidWord(words[j]) == Ok(true) by {
            forall j | 0 <= j < k + 1 ensures isValidWord(words[j]) == Ok(true) {
              if j > 0 { assert words[j] == rest[j - 1]; }
            }
          }
        }
        if exists i :: 0 <= i < |words| && isValidWord(words[i]) == Ok(false) &&
            forall j :: 0 <= j < i ==> isValidWord(words[j]) == Ok(true) {
          var k :| 0 <= k < |words| && isValidWord(words[k]) == Ok(false) &&
            forall j :: 0 <= j < k ==> isValidWord(words[j]) == Ok(true);
          assert k > 0;
          assert isValidWord(rest[k - 1]) == Ok(false);
          assert forall j :: 0 <= j < k - 1 ==> isValidWord(rest[j]) == Ok(true) by {
            forall j | 0 <= j < k - 1 ensures isValidWord(rest[j]) == Ok(true) {
              assert rest[j] == words[j + 1];
            }
          }
        }
        if forall i :: 0 <= i < |rest| ==> isValidWord(rest[i]) == Ok(true) {
          forall i | 0 <= i < |words| ensures isValidWord(words[i]) == Ok(true) {
            if i > 0 { assert words[i] == rest[i - 1]; }
          }
        }
      }
    }
  }

  /**
   * A swap of repeat-free tiles, all held in a repeat-free rack, leaves the
   * rack as large as it was and only moves tiles between rack and bag.
   */
  lemma SwapKeepsTiles(rack: seq<LetterTile>, bag: seq<LetterTile>, oldTiles: seq<LetterTile>, random: nat -> nat, from: nat)
    requires Unique(rack) && Unique(oldTiles) && forall t :: t in oldTiles ==> t in rack
    requires |oldTiles| <= |bag|
    ensures var d := Draws(bag, random, from, |oldTiles|);
      && |RemoveAll(rack, oldTiles) + d.0| == |rack|
      && |d.1 + oldTiles| == |bag|
      && multiset(RemoveAll(rack, oldTiles) + d.0) + multiset(d.1 + oldTiles) == multiset(rack) + multiset(bag)
  {
    RemoveAllHeld(rack, oldTiles);
    DrawsPermutes(bag, random, from, |oldTiles|);
  }

  /** `containsAll`: every tile of `tiles` is in `rack`. */
  predicate HoldsAll(rack: seq<LetterTile>, tiles: seq<LetterTile>)
  {
    forall i :: 0 <= i < |tiles| ==> tiles[i] in rack
  }

  /** What `placeMove` changes once its checks pass: the board, the log and the rack, the mover's score, the played move. */
  datatype Placed = Placed(progress: Progress, score: int, playedMove: Option<Move>)

  /**
   * `placeMove` once its checks pass, from `s` with the mover at `score`:
   * the tiles go down in order (see `PlaceAll`), then the move's total
   * score is added and the move recorded. An exception stops it where it is.
   */
  function PlayMove(s: Progress, score: int, move: Move): (Placed, Result<()>)
    requires Grid(s.board)
  {
    var placed := PlaceAll(s, move.placements);
    if placed.1.Err? then (Placed(placed.0, score, None), placed.1)
    else ScoreMove(placed.0, score, move, TotalScoreOf(placed.0.board, move))
  }

  /**
   * The end of a played move that stands on `p`, once scoring has given
   * `total`: the total is added and the move recorded, unless scoring threw.
   */
  function ScoreMove(p: Progress, score: int, move: Move, total: Result<int>): (Placed, Result<()>)
  {
    if total.Err? then (Placed(p, score, None), Err(total.fault))
    else (Placed(p, score + total.value, Some(move)), Ok(()))
  }

  /**
   * What a challenge can change: the board, the players waiting out a skip,
   * the turn's trigger log and played move, and the mover's score and rack.
   */
  datatype Stakes = Stakes(
    board: BoardState, skipped: seq<Player>, log: map<Position, seq<SpecialTile>>,
    played: Option<Move>, score: int, rack: seq<LetterTile>)

  /**
   * What the close of a turn starts from, besides the board, the turn
   * direction and the scores: the turn, its player's rack, the bag and its
   * draws so far, the players waiting out a skip and the index.
   */
  datatype Closing = Closing(
    last: Turn, rack: seq<LetterTile>, bag: seq<LetterTile>, draws: nat, skipped: seq<Player>, index: int)

  /** What a challenge of `move` asks on board `b`: the words it forms, all put to the dictionary. */
  function Verdict(b: BoardState, move: Move, isValidWord: Option<PlayedWord> -> Result<bool>): Result<bool>
    requires Grid(b)
  {
    var words := WordsOf(b, move);
    if words.Err? then Err(words.fault) else AllValid(words.value, isValidWord)
  }

  /**
   * `move` taken back after it was scored `total`: the mover loses the
   * total and gets the tiles back at the end of the rack, the move's
   * squares lose their letters and get back the special tiles they had set
   * off, and the turn forgets its log and its move.
   */
  function Rescinded(s: Stakes, move: Move, total: int): Stakes
  {
    s.(board := RolledBack(s.board, move.placements, s.log), log := map[], played := None,
      score := s.score - total, rack := s.rack + TilesOf(move.placements))
  }

  /**
   * `challengeLastMove` once its gate has closed, on the played `move`:
   * when every word passes, the challenger is to be skipped; when one
   * fails, the move is scored once more and rescinded; an exception from
   * the words, the dictionary or the scoring stops it with nothing else
   * changed.
   */
  function Challenge(s: Stakes, move: Move, challenger: Player, isValidWord: Option<PlayedWord> -> Result<bool>): (Stakes, Result<()>)
    requires Grid(s.board)
  {
    var verdict := Verdict(s.board, move, isValidWord);
    if verdict.Err? then (s, Err(verdict.fault))
    else if verdict.value then (s.(skipped := s.skipped + [challenger]), Ok(()))
    else
      var total := TotalScoreOf(s.board, move);
      if total.Err? then (s, Err(total.fault)) else (Rescinded(s, move, total.value), Ok(()))
  }

  class Game {
    var firstMoveTaken: bool
    const tileStore: SpecialTileStore
    const tileBag: TileBag
    const board: Board
    /** The dictionary: whether a word (or a null word) is valid, or the exception the check throws. */
    const isValidWord: Option<PlayedWord> -> Result<bool>
    const players: seq<Player>
    var skippedPlayers: seq<Player>
    var playerIndex: int
    var turn: Turn?
    var turnDirection: TurnDirection

    /** What holds from construction on, whatever the turn: a 15 by 15 board, one special tile per owner on a square, a consistent store. */
    ghost predicate Settled()
      reads board, board.squares.Values, tileStore.maps
    {
      && board.Valid() && board.width == DefaultBoards.Width && board.height == DefaultBoards.Height
      && OneTilePerOwner(board.Snapshot())
      && tileStore.maps.Valid()
    }

    /**
     * What holds once turns have begun: the turn belongs to the player at
     * `playerIndex`; before a letter action nothing is logged or played; a
     * played move is well formed and, until the turn ends, stands on the
     * board with its trigger log.
     */
    ghost predicate Valid()
      reads this, board, board.squares.Values, tileStore.maps, turn
    {
      && Settled()
      && (turn != null ==>
        && 0 <= playerIndex < |players| && turn.player == players[playerIndex]
        && (!turn.letterActionTaken ==> turn.triggered == map[] && turn.playedMove == None)
        && (turn.playedMove.Some? ==> turn.playedMove.value.Valid())
        && (turn.playedMove.Some? && !turn.endActionTaken ==>
          Stands(board.Snapshot(), turn.playedMove.value.placements, turn.triggered)))
    }

    /**
     * A change that leaves the board, the store, the index, the turn, and
     * the turn's move and log as they were, and reopens no gate, keeps the
     * invariant.
     */
    twostate lemma StillValid()
      requires old(Valid())
      requires unchanged(board, tileStore.maps) && unchanged(board.squares.Values)
      requires playerIndex == old(playerIndex) && turn == old(turn)
      requires turn != null ==> turn.triggered == old(turn.triggered) && turn.playedMove == old(turn.playedMove)
      requires turn != null ==> (old(turn.letterActionTaken) ==> turn.letterActionTaken)
      requires turn != null ==> (old(turn.endActionTaken) ==> turn.endActionTaken)
      ensures Valid()
    {
    }

    /**
     * `new SWSGame(players)`: registers the five default special tiles at
     * their prices, fills the default bag and builds the default board. No
     * turn has begun until `setupGame`.
     */
    constructor (players: seq<Player>, isValidWord: Option<PlayedWord> -> Result<bool>, random: nat -> nat)
      requires SkipIdentifierDistinct()
      ensures Valid()
      ensures this.players == players && this.isValidWord == isValidWord
      ensures fresh(board) && fresh(tileBag) && fresh(tileStore) && fresh(tileStore.maps)
      ensures Grid(board.Snapshot()) && Bare(board.Snapshot())
      ensures |tileBag.tiles| == 98 && forall l :: multiset(LettersOfTiles(tileBag.tiles))[l] == NumberOfTiles(l)
      ensures tileBag.random == random && tileBag.draws == 0
      ensures forall k :: Identifier(k) in tileStore.maps.factories && tileStore.maps.factories[Identifier(k)] == k
      ensures forall k :: tileStore.maps.prices[Identifier(k)] == DefaultPrice(k)
      ensures !firstMoveTaken && skippedPlayers == [] && playerIndex == 0 && turn == null && turnDirection == CW
    {
      var store := DefaultStore();
      var bag := DefaultBag(random);
      this.players := players;
      this.isValidWord := isValidWord;
      tileStore := store;
      tileBag := bag;
      firstMoveTaken := false;
      skippedPlayers := [];
      playerIndex := 0;
      turn := null;
      turnDirection := CW;
      var b := DefaultBoard();
      board := b;
    }

    /** `currentPlayer`: before the first turn there is none and Java dereferences null. */
    function CurrentPlayer(): (r: Result<Player>)
      reads this, turn
      ensures r.Err? <==> turn == null
      ensures r.Err? ==> r.fault == NullPointer
      ensures r.Ok? ==> r.value == turn.player
    {
      if turn == null then Err(NullPointer) else Ok(turn.player)
    }

    /** Once turns have begun, the current player is the one at `playerIndex`. */
    lemma CurrentPlayerIsIndexed()
      requires Valid() && turn != null
      ensures 0 <= playerIndex < |players| && CurrentPlayer() == Ok(players[playerIndex])
    {
    }

    /** `lastMove`: the move played this turn, if any. */
    function LastMove(): (r: Result<Option<Move>>)
      reads this, turn
      ensures r.Err? <==> turn == null
      ensures r.Ok? ==> r.value == turn.playedMove
    {
      if turn == null then Err(NullPointer) else Ok(turn.playedMove)
    }

    /** `firstMoveIsCorrect`: after the first move anything goes; the first move must cover the centre. */
    predicate FirstMoveIsCorrect(move: Move)
      reads this
    {
      firstMoveTaken || CenterPosition in move.Positions()
    }

    /**
     * A first move that passes `placeMove`'s checks lays two or more tiles,
     * one of them on the centre square (7, 7), and the player holds them all.
     */
    lemma FirstPlayCoversCentre(player: Player, move: Move)
      requires board.Keyed() && move.Valid() && !firstMoveTaken
      requires PlaceCheck(player, move) == Ok(true)
      ensures |move.placements| >= 2
      ensures exists i :: 0 <= i < |move.placements| && move.placements[i].position == Position(7, 7)
      ensures forall t :: t in move.Tiles() ==> t in player.letterTiles
    {
      BoardStates.IsValidMoveAcceptedAnchor(board.Snapshot(), player.letterTiles, move, true);
      BoardStates.IsValidMoveAcceptedShape(board.Snapshot(), player.letterTiles, move, true);
      var k := Moves.IndexOf(move.Positions(), CenterPosition);
    }

    /** `viewOfSquare`: the square at `p` as `player` sees it. */
    function ViewOfSquare(player: Player, p: Position): (r: Result<ImmutableSquare>)
      reads this, board, board.squares.Values
      requires board.Keyed()
      ensures r == PlayerView(board.Snapshot(), player, p)
    {
      if !board.IsValidPosition(p) then Err(IllegalArgument("Not a valid position."))
      else
        var original := board.ViewOfSquare(p).value;
        Ok(original.(specialTiles := OwnedBy(original.specialTiles, player)))
    }

    /**
     * `canSwapTiles`: `player` is the current player, the bag holds at
     * least seven tiles and the letter gate is open.
     */
    function CanSwapTiles(player: Player): (r: Result<bool>)
      reads this, turn, tileBag
      ensures r.Err? <==> turn == null
      ensures r.Ok? ==>
        (r.value <==> player == turn.player && |tileBag.tiles| >= MaxSwap && !turn.letterActionTaken && !turn.endActionTaken)
    {
      if turn == null then Err(NullPointer)
      else Ok(player == turn.player && tileBag.CanSwapTiles() && turn.CanTakeLetterAction(player))
    }

    /** `isGameOver`: the bag is empty. */
    predicate IsGameOver()
      reads tileBag
    {
      tileBag.IsEmpty()
    }

    /** `skipTurn`: `p` will be passed over once more. */
    method SkipTurn(p: Player)
      modifies this`skippedPlayers
      ensures skippedPlayers == old(skippedPlayers) + [p]
      ensures multiset(skippedPlayers)[p] == multiset(old(skippedPlayers))[p] + 1
    {
      skippedPlayers := skippedPlayers + [p];
    }

    /** `reverseTurnDirection`: the turn order runs the other way; doing it twice changes nothing. */
    method ReverseTurnDirection()
      modifies this`turnDirection
      ensures turnDirection != old(turnDirection) && Opposite(turnDirection) == old(turnDirection)
    {
      turnDirection := Opposite(turnDirection);
      OppositeInvolution(old(turnDirection));
    }

    /**
     * `advancePlayer`: steps the index in the turn direction with a true
     * modulus, passing over (and forgiving once) each player waiting out a
     * skip, and gives the player landed on a fresh turn. With no players the
     * remainder by zero throws.
     */
    method AdvancePlayer() returns (r: Result<()>)
      modifies this`playerIndex, this`skippedPlayers, this`turn
      ensures |players| == 0 ==>
        r == Err(Arithmetic) && playerIndex == old(playerIndex) && skippedPlayers == old(skippedPlayers) && turn == old(turn)
      ensures |players| > 0 ==>
        var a := Advance(players, old(skippedPlayers), old(playerIndex), Delta(turnDirection));
        && r == Ok(()) && playerIndex == a.0 && skippedPlayers == a.1 && 0 <= playerIndex < |players|
        && turn != null && fresh(turn) && turn.player == players[playerIndex] && Untouched(turn)
      ensures firstMoveTaken == old(firstMoveTaken) && turnDirection == old(turnDirection)
      decreases |skippedPlayers|
    {
      if |players| == 0 {
        return Err(Arithmetic);
      }
      var delta := if turnDirection == CW then 1 else -1;
      NextIndexIsModulus(playerIndex, |players|, delta);
      playerIndex := JavaRem(JavaRem(playerIndex + delta, |players|) + |players|, |players|);
      if players[playerIndex] in skippedPlayers {
        skippedPlayers := RemoveFirst(skippedPlayers, players[playerIndex]);
        r := AdvancePlayer();
      } else {
        turn := new Turn(players[playerIndex]);
        r := Ok(());
      }
    }

    /** After an advance the turn invariant holds: the fresh turn belongs to the player at `playerIndex`. */
    lemma AdvancedIsValid()
      requires Settled() && turn != null && Untouched(turn)
      requires 0 <= playerIndex < |players| && turn.player == players[playerIndex]
      ensures Valid()
    {
    }

    /**
     * `drawTilesForPlayer`: draws from the bag onto `player`'s rack until
     * the rack holds seven tiles or the bag is empty.
     */
    method DrawTilesForPlayer(player: Player)
      modifies tileBag`tiles, tileBag`draws, player`letterTiles
      ensures var n := Need(|old(player.letterTiles)|, |old(tileBag.tiles)|, PlayerTileLimit);
        var d := Draws(old(tileBag.tiles), tileBag.random, old(tileBag.draws), n);
        && player.letterTiles == old(player.letterTiles) + d.0
        && tileBag.tiles == d.1 && tileBag.draws == old(tileBag.draws) + n
      ensures |player.letterTiles| >= PlayerTileLimit || tileBag.tiles == []
      ensures multiset(player.letterTiles) + multiset(tileBag.tiles) == multiset(old(player.letterTiles)) + multiset(old(tileBag.tiles))
      ensures player.score == old(player.score) && player.specialTiles == old(player.specialTiles)
    {
      ghost var n := Need(|player.letterTiles|, |tileBag.tiles|, PlayerTileLimit);
      ghost var i: nat := 0;
      while !tileBag.IsEmpty() && |player.letterTiles| < PlayerTileLimit
        invariant i <= n && n - i == Need(|player.letterTiles|, |tileBag.tiles|, PlayerTileLimit)
        invariant n <= |old(tileBag.tiles)|
        invariant player.letterTiles == old(player.letterTiles) + Draws(old(tileBag.tiles), tileBag.random, old(tileBag.draws), i).0
        invariant tileBag.tiles == Draws(old(tileBag.tiles), tileBag.random, old(tileBag.draws), i).1
        invariant tileBag.draws == old(tileBag.draws) + i
        invariant player.score == old(player.score) && player.specialTiles == old(player.specialTiles)
        decreases n - i
      {
        NeedStep(|player.letterTiles|, |tileBag.tiles|, PlayerTileLimit);
        DrawOnto(tileBag, player, old(player.letterTiles), old(tileBag.tiles), old(tileBag.draws), i);
        i := i + 1;
      }
      NeedStep(|player.letterTiles|, |tileBag.tiles|, PlayerTileLimit);
      assert i == n;
      DrawsPermutes(old(tileBag.tiles), tileBag.random, old(tileBag.draws), n);
    }

    /**
     * `highestScoringPlayer`: starts from the first player and moves to a
     * later one only on a strictly higher score, so the earliest of the
     * top scorers wins. With no players `players.get(0)` throws.
     */
    method HighestScoringPlayer() returns (r: Result<Player>)
      ensures |players| == 0 ==> r == Err(IndexOutOfBounds)
      ensures |players| > 0 ==> r.Ok? && r.value == players[FirstMaximum(ScoresOf(players))]
    {
      if |players| == 0 {
        return Err(IndexOutOfBounds);
      }
      ghost var scores := ScoresOf(players);
      var winner := players[0];
      ghost var w := 0;
      var i := 0;
      while i < |players|
        invariant 0 <= i <= |players| && w < |players| && winner == players[w]
        invariant i > 0 ==> w == FirstMaximum(scores[..i])
        invariant i == 0 ==> w == 0
      {
        assert scores[..i + 1][..i] == scores[..i];
        if winner.score < players[i].score {
          winner := players[i];
          w := i;
        }
        i := i + 1;
      }
      assert scores[..i] == scores;
      return Ok(winner);
    }

    /** One round of `setupGame`'s dealing loop: the player at `i` draws on top of the deal of the players before. */
    method DealOne(i: nat, ghost d0: Dealing)
      requires i < |players| && forall j :: 0 <= j < |players| ==> players[j] in d0.racks
      requires tileBag.tiles == Deal(players[..i], d0, tileBag.random).bag
      requires tileBag.draws == Deal(players[..i], d0, tileBag.random).draws
      requires forall j :: 0 <= j < |players| ==> players[j].letterTiles == Deal(players[..i], d0, tileBag.random).racks[players[j]]
      modifies tileBag`tiles, tileBag`draws, {players[i]}`letterTiles
      ensures tileBag.tiles == Deal(players[..i + 1], d0, tileBag.random).bag
      ensures tileBag.draws == Deal(players[..i + 1], d0, tileBag.random).draws
      ensures forall j :: 0 <= j < |players| ==> players[j].letterTiles == Deal(players[..i + 1], d0, tileBag.random).racks[players[j]]
      ensures forall j :: 0 <= j < |players| ==>
        players[j].score == old(players[j].score) && players[j].specialTiles == old(players[j].specialTiles)
    {
      DealStep(players, i, d0, tileBag.random);
      DrawFor(i);
    }

    /** The player at `i` draws up to a full rack; nobody's score or special tiles change. */
    method DrawFor(i: nat)
      requires i < |players|
      modifies tileBag`tiles, tileBag`draws, {players[i]}`letterTiles
      ensures var n := Need(|old(players[i].letterTiles)|, |old(tileBag.tiles)|, PlayerTileLimit);
        var d := Draws(old(tileBag.tiles), tileBag.random, old(tileBag.draws), n);
        && players[i].letterTiles == old(players[i].letterTiles) + d.0
        && tileBag.tiles == d.1 && tileBag.draws == old(tileBag.draws) + n
      ensures forall j :: 0 <= j < |players| ==>
        players[j].score == old(players[j].score) && players[j].specialTiles == old(players[j].specialTiles)
      ensures forall j :: 0 <= j < |players| && players[j] != players[i] ==> players[j].letterTiles == old(players[j].letterTiles)
    {
      DrawTilesForPlayer(players[i]);
    }

    /** `setupGame`'s dealing loop: every player in list order draws up to a full rack. */
    method DealAll()
      modifies tileBag, set i | 0 <= i < |players| :: players[i]
      ensures var d := Deal(players, Dealing(old(RacksOf(players)), old(tileBag.tiles), old(tileBag.draws)), tileBag.random);
        && tileBag.tiles == d.bag && tileBag.draws == d.draws
        && forall i :: 0 <= i < |players| ==> players[i].letterTiles == d.racks[players[i]]
      ensures forall i :: 0 <= i < |players| ==>
        players[i].score == old(players[i].score) && players[i].specialTiles == old(players[i].specialTiles)
    {
      ghost var d0 := Dealing(RacksOf(players), tileBag.tiles, tileBag.draws);
      var i := 0;
      while i < |players|
        invariant 0 <= i <= |players|
        invariant tileBag.tiles == Deal(players[..i], d0, tileBag.random).bag
        invariant tileBag.draws == Deal(players[..i], d0, tileBag.random).draws
        invariant forall j :: 0 <= j < |players| ==> players[j].letterTiles == Deal(players[..i], d0, tileBag.random).racks[players[j]]
        invariant forall j :: 0 <= j < |players| ==>
          players[j].score == old(players[j].score) && players[j].specialTiles == old(players[j].specialTiles)
      {
        DealOne(i, d0);
        i := i + 1;
      }
      assert players[..i] == players;
    }

    /**
     * `setupGame`: every player in list order draws a full rack, then the
     * index is set to -1 so that the advance lands on the first player
     * (in the default clockwise direction, with nobody waiting out a skip).
     */
    method SetupGame() returns (r: Result<()>)
      requires Settled()
      modifies this`playerIndex, this`skippedPlayers, this`turn, tileBag, set i | 0 <= i < |players| :: players[i]
      ensures var d := Deal(players, Dealing(old(RacksOf(players)), old(tileBag.tiles), old(tileBag.draws)), tileBag.random);
        && tileBag.tiles == d.bag && tileBag.draws == d.draws
        && forall i :: 0 <= i < |players| ==> players[i].letterTiles == d.racks[players[i]]
      ensures forall i :: 0 <= i < |players| ==> |players[i].letterTiles| >= PlayerTileLimit || tileBag.tiles == []
      ensures forall i :: 0 <= i < |players| ==>
        players[i].score == old(players[i].score) && players[i].specialTiles == old(players[i].specialTiles)
      ensures |players| == 0 ==> r == Err(Arithmetic)
      ensures |players| > 0 ==> r == Ok(()) && Valid() && turn != null && fresh(turn) && Untouched(turn)
      ensures |players| > 0 && old(skippedPlayers) == [] && turnDirection == CW ==> playerIndex == 0
      ensures firstMoveTaken == old(firstMoveTaken) && turnDirection == old(turnDirection)
    {
      DealAll();
      r := FirstTurn();
    }

    /** The last step of `setupGame`: set the index to -1 and advance from there. */
    method FirstTurn() returns (r: Result<()>)
      requires Settled()
      modifies this`playerIndex, this`skippedPlayers, this`turn
      ensures |players| == 0 ==> r == Err(Arithmetic)
      ensures |players| > 0 ==> r == Ok(()) && Valid() && turn != null && fresh(turn) && Untouched(turn)
      ensures |players| > 0 && old(skippedPlayers) == [] && turnDirection == CW ==> playerIndex == 0
      ensures firstMoveTaken == old(firstMoveTaken) && turnDirection == old(turnDirection)
    {
      playerIndex := -1;
      if |players| > 0 && skippedPlayers == [] && turnDirection == CW {
        AdvanceWithoutSkips(players, -1, Delta(CW));
        assert Advance(players, skippedPlayers, playerIndex, Delta(turnDirection)).0 == 0;
      }
      r := AdvancePlayer();
      if |players| > 0 {
        AdvancedIsValid();
      }
    }

    // -------------------------------------------------------------------------
    // Placing a move
    // -------------------------------------------------------------------------

    /** `addTriggeredSpecialTile` for each of `ts`, in order, at `p`. */
    method LogTriggered(p: Position, ts: seq<SpecialTile>)
      requires turn != null
      modifies turn`triggered
      ensures turn.triggered == Logged(old(turn.triggered), p, ts)
    {
      var i := 0;
      while i < |ts|
        invariant 0 <= i <= |ts|
        invariant turn.triggered == Logged(old(turn.triggered), p, ts[..i])
      {
        assert ts[..i + 1] == ts[..i] + [ts[i]];
        LoggedStep(old(turn.triggered), p, ts[..i], ts[i]);
        turn.AddTriggeredSpecialTile(p, ts[i]);
        i := i + 1;
      }
      assert ts[..i] == ts;
    }

    /** The first part of a round of `placeMove`'s loop: the square's special tiles move into the log. */
    method Uncover(p: Position) returns (r: Result<()>)
      requires board.Valid() && turn != null
      modifies board.squares.Values, turn`triggered
      ensures r.Err? <==> p !in old(board.Snapshot()).squares
      ensures r.Err? ==>
        r == Err(IllegalArgument("Invalid position argument.")) &&
        board.Snapshot() == old(board.Snapshot()) && turn.triggered == old(turn.triggered)
      ensures r.Ok? ==>
        && board.Snapshot() == ClearSpecials(old(board.Snapshot()), p)
        && turn.triggered == Logged(old(turn.triggered), p, old(board.Snapshot()).squares[p].specialTiles)
    {
      var specials := board.PickupSpecialTiles(p);
      if specials.Err? {
        return Err(specials.fault);
      }
      LogTriggered(p, specials.value);
      r := Ok(());
    }

    /**
     * The rest of a round of `placeMove`'s loop: the tile leaves the rack
     * and lands on the square, which throws when it holds a letter.
     */
    method Cover(player: Player, pl: Placement) returns (r: Result<()>)
      requires board.Valid()
      modifies board.squares.Values, player`letterTiles
      ensures player.letterTiles == RemoveFirst(old(player.letterTiles), pl.tile)
      ensures r.Err? <==> pl.position !in old(board.Snapshot()).squares || HasLetterAt(old(board.Snapshot()), pl.position)
      ensures r.Err? ==> r == Err(IllegalArgument("Invalid tile placement")) && board.Snapshot() == old(board.Snapshot())
      ensures r.Ok? ==> r == Ok(()) && board.Snapshot() == PutLetter(old(board.Snapshot()), pl.position, pl.tile)
    {
      ghost var before := board.Snapshot();
      player.letterTiles := RemoveFirst(player.letterTiles, pl.tile);
      assert board.Snapshot() == before;
      r := board.PlaceLetterTile(pl.position, pl.tile);
      if r.Ok? {
        OkUnit(r);
      }
    }

    /**
     * One round of `placeMove`'s loop: the square's special tiles go into
     * the log, the tile leaves the rack and lands on the square.
     */
    method PlaceOne(player: Player, pl: Placement) returns (r: Result<()>)
      requires board.Valid() && turn != null
      modifies board.squares.Values, turn`triggered, player`letterTiles
      ensures var step := PlaceStep(Progress(old(board.Snapshot()), old(turn.triggered), old(player.letterTiles)), pl);
        Progress(board.Snapshot(), turn.triggered, player.letterTiles) == step.0 && r == step.1
    {
      r := Uncover(pl.position);
      if r.Err? {
        return;
      }
      r := Cover(player, pl);
    }

    /** `placeMove`'s loop over the placements, in order, stopping at the first exception. */
    method PlaceLetters(player: Player, ps: seq<Placement>, ghost s0: Progress) returns (r: Result<()>)
      requires board.Valid() && turn != null
      requires s0 == Progress(board.Snapshot(), turn.triggered, player.letterTiles)
      modifies board.squares.Values, turn`triggered, player`letterTiles
      ensures var placed := PlaceAll(s0, ps);
        Progress(board.Snapshot(), turn.triggered, player.letterTiles) == placed.0 && r == placed.1
    {
      var i := 0;
      while i < |ps|
        invariant 0 <= i <= |ps|
        invariant PlaceAll(s0, ps) == PlaceAll(Progress(board.Snapshot(), turn.triggered, player.letterTiles), ps[i..])
      {
        PlaceAllFrom(Progress(board.Snapshot(), turn.triggered, player.letterTiles), ps, i);
        r := PlaceOne(player, ps[i]);
        if r.Err? {
          return;
        }
        i := i + 1;
      }
      assert ps[i..] == [];
      r := Ok(());
    }

    /** What `placeMove` checks, in order: the letter gate, `isValidMove`, then the centre rule. */
    function PlaceCheck(player: Player, move: Move): Result<bool>
      reads this, turn, board, board.squares.Values, player
      requires board.Keyed() && move.Valid()
    {
      if turn == null then Err(NullPointer)
      else if !turn.CanTakeLetterAction(player) then Ok(false)
      else
        var valid := BoardStates.IsValidMove(board.Snapshot(), player.letterTiles, move, !firstMoveTaken);
        if valid.Err? then valid else Ok(valid.value && FirstMoveIsCorrect(move))
    }

    /**
     * `placeMove` once its checks pass: the letter gate closes, the tiles go
     * down (see `PlaceLetters`), the move's total score is added and the
     * move is recorded. An exception stops it where it is.
     */
    method Play(player: Player, move: Move) returns (r: Result<()>)
      requires Valid() && move.Valid() && turn != null && turn.CanTakeLetterAction(player)
      modifies board.squares.Values, turn`letterActionTaken, turn`triggered, turn`playedMove
      modifies player`letterTiles, player`score
      ensures turn.letterActionTaken
      ensures (Placed(Progress(board.Snapshot(), turn.triggered, player.letterTiles), player.score, turn.playedMove), r)
        == PlayMove(Progress(old(board.Snapshot()), map[], old(player.letterTiles)), old(player.score), move)
      ensures Valid()
    {
      ghost var s := Progress(board.Snapshot(), turn.triggered, player.letterTiles);
      turn.TakeLetterAction(player);
      r := PlaceAndScore(player, move, s);
    }

    /** `placeMove` after the letter gate closes: the tiles go down from `s`, then the move is scored. */
    method PlaceAndScore(player: Player, move: Move, ghost s: Progress) returns (r: Result<()>)
      requires board.Valid() && board.width == DefaultBoards.Width && board.height == DefaultBoards.Height
      requires tileStore.maps.Valid() && move.Valid() && turn != null
      requires 0 <= playerIndex < |players| && turn.player == players[playerIndex]
      requires turn.letterActionTaken && !turn.endActionTaken && turn.playedMove == None
      requires s == Progress(board.Snapshot(), turn.triggered, player.letterTiles) && s.triggered == map[] && OneTilePerOwner(s.board)
      modifies board.squares.Values, turn`triggered, turn`playedMove, player`letterTiles, player`score
      ensures (Placed(Progress(board.Snapshot(), turn.triggered, player.letterTiles), player.score, turn.playedMove), r)
        == PlayMove(s, old(player.score), move)
      ensures Valid()
    {
      var placed := PlaceLetters(player, move.placements, s);
      r := Settle(player, move, s, placed);
    }

    /** The end of a played move: the placed tiles stand, and the move is scored (see `Score`). */
    method Settle(player: Player, move: Move, ghost s: Progress, placed: Result<()>) returns (r: Result<()>)
      requires board.Valid() && board.width == DefaultBoards.Width && board.height == DefaultBoards.Height
      requires tileStore.maps.Valid() && move.Valid() && turn != null
      requires 0 <= playerIndex < |players| && turn.player == players[playerIndex]
      requires turn.letterActionTaken && !turn.endActionTaken && turn.playedMove == None
      requires s.triggered == map[] && OneTilePerOwner(s.board)
      requires PlaceAll(s, move.placements) == (Progress(board.Snapshot(), turn.triggered, player.letterTiles), placed)
      modifies turn`playedMove, player`score
      ensures (Placed(Progress(board.Snapshot(), turn.triggered, player.letterTiles), player.score, turn.playedMove), r)
        == PlayMove(s, old(player.score), move)
      ensures Valid()
    {
      if placed.Err? {
        PlaceAllKeepsOrClears(s, move.placements);
        KeepsOrClearsKeepsOneTilePerOwner(s.board, board.Snapshot());
        return placed;
      }
      OkUnit(placed);
      PlacedMoveStands(s, move.placements);
      r := Finish(player, move, PlaceAll(s, move.placements).0);
    }

    /** A standing move is scored and recorded (see `Record`), unless scoring throws. */
    method Finish(player: Player, move: Move, ghost s: Progress) returns (r: Result<()>)
      requires Settled() && move.Valid() && turn != null
      requires s == Progress(board.Snapshot(), turn.triggered, player.letterTiles)
      requires 0 <= playerIndex < |players| && turn.player == players[playerIndex]
      requires turn.letterActionTaken && !turn.endActionTaken && turn.playedMove == None
      requires Stands(board.Snapshot(), move.placements, turn.triggered)
      modifies turn`playedMove, player`score
      ensures (Placed(Progress(board.Snapshot(), turn.triggered, player.letterTiles), player.score, turn.playedMove), r)
        == ScoreMove(s, old(player.score), move, TotalScoreOf(s.board, move))
      ensures Valid()
    {
      var total := TotalScore(board, move);
      assert board.Snapshot() == old(board.Snapshot());
      r := Record(player, move, total, s);
    }

    /** Unless scoring threw, the move is recorded as played and its score added to the player's. */
    method Record(player: Player, move: Move, total: Result<int>, ghost s: Progress) returns (r: Result<()>)
      requires Settled() && move.Valid() && turn != null
      requires s == Progress(board.Snapshot(), turn.triggered, player.letterTiles)
      requires 0 <= playerIndex < |players| && turn.player == players[playerIndex]
      requires turn.letterActionTaken && !turn.endActionTaken && turn.playedMove == None
      requires Stands(board.Snapshot(), move.placements, turn.triggered)
      modifies turn`playedMove, player`score
      ensures (Placed(Progress(board.Snapshot(), turn.triggered, player.letterTiles), player.score, turn.playedMove), r)
        == ScoreMove(s, old(player.score), move, total)
      ensures Valid()
    {
      if total.Err? {
        return Err(total.fault);
      }
      Enter(player, move, total.value, s);
      r := Ok(());
    }

    /** The move is recorded as played and `total` added to the player's score. */
    method Enter(player: Player, move: Move, total: int, ghost s: Progress)
      requires Settled() && move.Valid() && turn != null
      requires s == Progress(board.Snapshot(), turn.triggered, player.letterTiles)
      requires 0 <= playerIndex < |players| && turn.player == players[playerIndex]
      requires turn.letterActionTaken && !turn.endActionTaken
      requires Stands(board.Snapshot(), move.placements, turn.triggered)
      modifies turn`playedMove, player`score
      ensures player.score == old(player.score) + total && turn.playedMove == Some(move)
      ensures Progress(board.Snapshot(), turn.triggered, player.letterTiles) == s
      ensures Valid()
    {
      player.score := player.score + total;
      turn.playedMove := Some(move);
    }

    /**
     * `placeMove`: with the letter gate open, a move `isValidMove` accepts
     * and, before the first move, one covering the centre, is played (see
     * `Play`); otherwise nothing changes.
     */
    method PlaceMove(player: Player, move: Move) returns (r: Result<()>)
      requires Valid() && move.Valid()
      modifies board.squares.Values, {turn}`letterActionTaken, {turn}`triggered, {turn}`playedMove
      modifies player`letterTiles, player`score
      ensures var check := old(PlaceCheck(player, move));
        if check != Ok(true) then
          && r == (if check.Err? then Err(check.fault) else Ok(()))
          && unchanged(board.squares.Values, player) && (turn != null ==> unchanged(turn))
        else
          && turn.letterActionTaken
          && (Placed(Progress(board.Snapshot(), turn.triggered, player.letterTiles), player.score, turn.playedMove), r)
            == PlayMove(Progress(old(board.Snapshot()), map[], old(player.letterTiles)), old(player.score), move)
      ensures Valid()
    {
      var check := CheckMove(player, move);
      assert board.Snapshot() == old(board.Snapshot()) && check == old(PlaceCheck(player, move));
      r := Act(player, move, check);
    }

    /** `placeMove` once its checks have given `check` (see `PlaceCheck`). */
    method Act(player: Player, move: Move, check: Result<bool>) returns (r: Result<()>)
      requires Valid() && move.Valid()
      requires check == Ok(true) ==> turn != null && turn.CanTakeLetterAction(player)
      modifies board.squares.Values, {turn}`letterActionTaken, {turn}`triggered, {turn}`playedMove
      modifies player`letterTiles, player`score
      ensures
        if check != Ok(true) then
          && r == (if check.Err? then Err(check.fault) else Ok(()))
          && unchanged(board.squares.Values, player) && (turn != null ==> unchanged(turn))
        else
          && turn.letterActionTaken
          && (Placed(Progress(board.Snapshot(), turn.triggered, player.letterTiles), player.score, turn.playedMove), r)
            == PlayMove(Progress(old(board.Snapshot()), map[], old(player.letterTiles)), old(player.score), move)
      ensures Valid()
    {
      if check.Err? {
        return Err(check.fault);
      }
      if !check.value {
        return Ok(());
      }
      r := Play(player, move);
    }

    /** `placeMove`'s checks, evaluated on the live board (see `PlaceCheck`). */
    method CheckMove(player: Player, move: Move) returns (r: Result<bool>)
      requires board.Keyed() && move.Valid()
      ensures r == PlaceCheck(player, move)
      ensures r == Ok(true) ==> turn != null && turn.CanTakeLetterAction(player)
    {
      if turn == null {
        return Err(NullPointer);
      }
      if !turn.CanTakeLetterAction(player) {
        return Ok(false);
      }
      var valid := board.IsValidMove(player, move, !firstMoveTaken);
      if valid.Err? {
        return valid;
      }
      r := Ok(valid.value && FirstMoveIsCorrect(move));
    }

    // -------------------------------------------------------------------------
    // Special tiles and swaps
    // -------------------------------------------------------------------------

    /**
     * What `placeSpecialTile` checks, in order: `player` is the current
     * player, holds the tile and may take the special action; then the
     * square, as `player` sees it, shows none of their special tiles.
     */
    function SpecialCheck(player: Player, p: Position, tile: SpecialTile): Result<bool>
      reads this, turn, board, board.squares.Values, player
      requires board.Keyed()
    {
      if turn == null then Err(NullPointer)
      else if !(turn.player == player && tile in player.specialTiles && turn.CanTakeSpecialAction(player)) then Ok(false)
      else
        var view := ViewOfSquare(player, p);
        if view.Err? then Err(view.fault) else Ok(view.value.specialTiles == [])
    }

    /**
     * The checks pass exactly when `player` may take the special action,
     * holds the tile, and the square lies on the board without a tile of
     * theirs; they throw before the first turn and for an off-board square.
     */
    lemma SpecialCheckMeans(player: Player, p: Position, tile: SpecialTile)
      requires board.Keyed()
      ensures SpecialCheck(player, p, tile) == Ok(true) <==>
        && turn != null && turn.CanTakeSpecialAction(player) && tile in player.specialTiles
        && p in board.Snapshot().squares && !OwnerHasTileAt(board.Snapshot(), p, player)
      ensures SpecialCheck(player, p, tile).Err? <==>
        turn == null || (turn.CanTakeSpecialAction(player) && tile in player.specialTiles && p !in board.Snapshot().squares)
    {
      if p in board.Snapshot().squares {
        PlayerViewHasSpecialTiles(board.Snapshot(), player, p);
      }
    }

    /**
     * `placeSpecialTile`: when the checks pass (see `SpecialCheck`), the
     * special gate closes, the tile leaves `player`'s hand and goes onto the
     * board, which throws, after those two changes, for a lettered square or
     * one where the tile's owner already has a tile; when they fail nothing
     * changes.
     */
    method PlaceSpecialTile(player: Player, p: Position, tile: SpecialTile) returns (r: Result<()>)
      requires Valid()
      modifies board.squares.Values, {turn}`specialActionTaken, player`specialTiles
      ensures var check := old(SpecialCheck(player, p, tile));
        if check != Ok(true) then
          && r == (if check.Err? then Err(check.fault) else Ok(()))
          && board.Snapshot() == old(board.Snapshot()) && player.specialTiles == old(player.specialTiles)
          && (turn != null ==> turn.specialActionTaken == old(turn.specialActionTaken))
        else
          && turn.specialActionTaken
          && player.specialTiles == RemoveFirst(old(player.specialTiles), tile)
          && (board.Snapshot(), r) == PlaceSpecial(old(board.Snapshot()), p, tile)
      ensures Valid()
    {
      var check := SpecialCheck(player, p, tile);
      if check.Err? {
        return Err(check.fault);
      }
      if !check.value {
        return Ok(());
      }
      r := Spend(player, p, tile);
    }

    /** `placeSpecialTile` once its checks pass: the gate closes, the tile leaves the hand and goes down (see `Lay`). */
    method Spend(player: Player, p: Position, tile: SpecialTile) returns (r: Result<()>)
      requires Valid() && turn != null && p in board.Snapshot().squares
      modifies board.squares.Values, turn`specialActionTaken, player`specialTiles
      ensures turn.specialActionTaken
      ensures player.specialTiles == RemoveFirst(old(player.specialTiles), tile)
      ensures (board.Snapshot(), r) == PlaceSpecial(old(board.Snapshot()), p, tile)
      ensures Valid()
    {
      ghost var b := board.Snapshot();
      turn.TakeSpecialAction(player);
      player.specialTiles := RemoveFirst(player.specialTiles, tile);
      assert board.Snapshot() == b;
      StillValid();
      r := Lay(p, tile);
    }

    /** `board.placeSpecialTile` during a turn: a tile the board accepts keeps a standing move standing and one tile per owner on a square. */
    method Lay(p: Position, tile: SpecialTile) returns (r: Result<()>)
      requires Valid() && turn != null && p in board.Snapshot().squares
      modifies board.squares.Values
      ensures (board.Snapshot(), r) == PlaceSpecial(old(board.Snapshot()), p, tile)
      ensures Valid()
    {
      ghost var b := board.Snapshot();
      if !HasLetterAt(b, p) && !OwnerHasTileAt(b, p, tile.owner) {
        PutSpecialKeepsOneTilePerOwner(b, p, tile);
        if turn.playedMove.Some? && !turn.endActionTaken {
          PutSpecialKeepsStanding(b, turn.playedMove.value.placements, turn.triggered, p, tile);
        }
      }
      r := board.PlaceSpecialTile(p, tile);
    }

    /**
     * `buySpecialTile`: for an identifier the store sells, the special gate
     * closes (whoever asks, and whether or not it was open) and the store
     * sells `player` the tile, adding its price to their score (see
     * `SpecialTileStore.BuySpecialTile`); for any other identifier nothing
     * changes. Before the first turn the null turn throws.
     */
    method BuySpecialTile(player: Player, id: string) returns (r: Result<()>)
      requires Valid()
      modifies {turn}`specialActionTaken, player`score, player`specialTiles
      ensures !tileStore.HasSpecialTile(id) ==>
        && r == Ok(()) && unchanged(player)
        && (turn != null ==> turn.specialActionTaken == old(turn.specialActionTaken))
      ensures tileStore.HasSpecialTile(id) && turn == null ==> r == Err(NullPointer) && unchanged(player)
      ensures tileStore.HasSpecialTile(id) && turn != null ==>
        && r == Ok(()) && turn.specialActionTaken
        && player.score == old(player.score) + tileStore.maps.prices[id]
        && |player.specialTiles| == |old(player.specialTiles)| + 1
        && player.specialTiles[..|old(player.specialTiles)|] == old(player.specialTiles)
        && var t := player.specialTiles[|old(player.specialTiles)|];
          fresh(t) && t.kind == tileStore.maps.factories[id] && t.owner == player
      ensures Valid()
    {
      if !tileStore.HasSpecialTile(id) {
        return Ok(());
      }
      if turn == null {
        return Err(NullPointer);
      }
      turn.TakeSpecialAction(player);
      assert id in tileStore.maps.prices by {
        assert id in tileStore.maps.factories.Keys;
      }
      r := tileStore.BuySpecialTile(player, id);
      OkUnit(r);
      StillValid();
    }

    /**
     * What `swapTiles` checks: `player` is the current player, offers at
     * least one tile, holds every tile offered, and the bag can swap. The
     * letter gate is not consulted.
     */
    function SwapCheck(player: Player, oldTiles: seq<LetterTile>): Result<bool>
      reads this, turn, player, tileBag
    {
      if turn == null then Err(NullPointer)
      else Ok(
        && turn.player == player && |oldTiles| > 0
        && HoldsAll(player.letterTiles, oldTiles)
        && tileBag.CanSwapTiles())
    }

    /**
     * `swapTiles`: when the checks pass (see `SwapCheck`), the letter gate
     * closes, every occurrence of the offered tiles leaves the rack, the bag
     * swaps them (see `TileBag.SwapTiles`) and the tiles drawn join the end
     * of the rack. More than seven tiles make the bag throw after the rack
     * has lost them. When the checks fail nothing changes.
     */
    method SwapTiles(player: Player, oldTiles: seq<LetterTile>) returns (r: Result<()>)
      requires Valid()
      modifies {turn}`letterActionTaken, player`letterTiles, tileBag`tiles, tileBag`draws
      ensures var check := old(SwapCheck(player, oldTiles));
        if check != Ok(true) then
          && r == (if check.Err? then Err(check.fault) else Ok(()))
          && player.letterTiles == old(player.letterTiles)
          && tileBag.tiles == old(tileBag.tiles) && tileBag.draws == old(tileBag.draws)
          && (turn != null ==> turn.letterActionTaken == old(turn.letterActionTaken))
        else
          && turn.letterActionTaken
          && var kept := RemoveAll(old(player.letterTiles), oldTiles);
          if |oldTiles| > MaxSwap then
            && r == Err(IllegalArgument("Cannot swap more than MAX_SWAP tiles")) && player.letterTiles == kept
            && tileBag.tiles == old(tileBag.tiles) && tileBag.draws == old(tileBag.draws)
          else
            var d := Draws(old(tileBag.tiles), tileBag.random, old(tileBag.draws), |oldTiles|);
            && r == Ok(()) && player.letterTiles == kept + d.0
            && tileBag.tiles == d.1 + oldTiles && tileBag.draws == old(tileBag.draws) + |oldTiles|
      ensures Valid()
    {
      var check := SwapCheck(player, oldTiles);
      if check != Ok(true) {
        return if check.Err? then Err(check.fault) else Ok(());
      }
      r := Swap(player, oldTiles);
    }

    /** `swapTiles` once its checks pass: the letter gate closes and the tiles are exchanged (see `Exchange`). */
    method Swap(player: Player, oldTiles: seq<LetterTile>) returns (r: Result<()>)
      requires Valid() && turn != null
      requires 0 < |oldTiles| && tileBag.CanSwapTiles() && HoldsAll(player.letterTiles, oldTiles)
      modifies turn`letterActionTaken, player`letterTiles, tileBag`tiles, tileBag`draws
      ensures turn.letterActionTaken
      ensures var kept := RemoveAll(old(player.letterTiles), oldTiles);
        if |oldTiles| > MaxSwap then
          && r == Err(IllegalArgument("Cannot swap more than MAX_SWAP tiles")) && player.letterTiles == kept
          && tileBag.tiles == old(tileBag.tiles) && tileBag.draws == old(tileBag.draws)
        else
          var d := Draws(old(tileBag.tiles), tileBag.random, old(tileBag.draws), |oldTiles|);
          && r == Ok(()) && player.letterTiles == kept + d.0
          && tileBag.tiles == d.1 + oldTiles && tileBag.draws == old(tileBag.draws) + |oldTiles|
      ensures Valid()
    {
      turn.TakeLetterAction(player);
      StillValid();
      label closed:
      r := Exchange(player, oldTiles);
      StillValid@closed();
    }

    /**
     * `swapTiles` once its checks pass and the gate has closed: the rack
     * loses the offered tiles, the bag swaps them and the rack gains what
     * was drawn; a repeat-free offer from a repeat-free rack keeps the rack's
     * size and only moves tiles between rack and bag.
     */
    method Exchange(player: Player, oldTiles: seq<LetterTile>) returns (r: Result<()>)
      requires 0 < |oldTiles| && tileBag.CanSwapTiles()
      requires HoldsAll(player.letterTiles, oldTiles)
      modifies player`letterTiles, tileBag`tiles, tileBag`draws
      ensures var kept := RemoveAll(old(player.letterTiles), oldTiles);
        if |oldTiles| > MaxSwap then
          && r == Err(IllegalArgument("Cannot swap more than MAX_SWAP tiles")) && player.letterTiles == kept
          && tileBag.tiles == old(tileBag.tiles) && tileBag.draws == old(tileBag.draws)
        else
          var d := Draws(old(tileBag.tiles), tileBag.random, old(tileBag.draws), |oldTiles|);
          && r == Ok(()) && player.letterTiles == kept + d.0
          && tileBag.tiles == d.1 + oldTiles && tileBag.draws == old(tileBag.draws) + |oldTiles|
      ensures r.Ok? && Unique(old(player.letterTiles)) && Unique(oldTiles) ==>
        && |player.letterTiles| == |old(player.letterTiles)|
        && multiset(player.letterTiles) + multiset(tileBag.tiles) == multiset(old(player.letterTiles)) + multiset(old(tileBag.tiles))
    {
      ghost var rack := player.letterTiles;
      player.letterTiles := RemoveAll(player.letterTiles, oldTiles);
      var newTiles := tileBag.SwapTiles(oldTiles);
      if newTiles.Err? {
        return Err(newTiles.fault);
      }
      player.letterTiles := player.letterTiles + newTiles.value;
      if Unique(rack) && Unique(oldTiles) {
        SwapKeepsTiles(rack, old(tileBag.tiles), oldTiles, tileBag.random, old(tileBag.draws));
      }
      r := Ok(());
    }


    // -------------------------------------------------------------------------
    // Challenging a move
    // -------------------------------------------------------------------------

    /** The current player as a set, to name in frames: nobody before the first turn. */
    function Mover(): set<Player>
      reads this, turn
    {
      if turn == null then {} else {turn.player}
    }

    /** What a challenge can change, as it is now (see `Stakes`). */
    function Staked(): Stakes
      requires turn != null
      reads this, board, board.squares.Values, turn, turn.player
    {
      Stakes(board.Snapshot(), skippedPlayers, turn.triggered, turn.playedMove, turn.player.score, turn.player.letterTiles)
    }

    /** What the close of a turn starts from, as it is now (see `Closing`). */
    function Pending(): Closing
      requires turn != null
      reads this`turn, this`skippedPlayers, this`playerIndex, turn.player, tileBag
    {
      Closing(turn, turn.player.letterTiles, tileBag.tiles, tileBag.draws, skippedPlayers, playerIndex)
    }

    /** `allWordsValid`: the dictionary's answers, word by word, until one is no (see `AllValid`). */
    method AllWordsValid(words: seq<Option<PlayedWord>>) returns (r: Result<bool>)
      ensures r == AllValid(words, isValidWord)
    {
      var i := 0;
      while i < |words|
        invariant 0 <= i <= |words|
        invariant AllValid(words, isValidWord) == AllValid(words[i..], isValidWord)
      {
        assert words[i..][1..] == words[i + 1..];
        var v := isValidWord(words[i]);
        if v.Err? {
          return v;
        }
        if !v.value {
          return Ok(false);
        }
        i := i + 1;
      }
      assert words[i..] == [];
      r := Ok(true);
    }

    /**
     * `challengeLastMove`: when `challenger` may challenge, the gate closes
     * and the played move is judged (see `Challenge`); otherwise nothing
     * changes. The log's squares are visited in `order`, the map's
     * iteration order.
     */
    method ChallengeLastMove(challenger: Player, order: seq<Position>) returns (r: Result<()>)
      requires Valid()
      requires turn != null ==> Enumerates(order, turn.triggered)
      modifies this`skippedPlayers, board.squares.Values, {turn}`challengeActionTaken, {turn}`triggered, {turn}`playedMove
      modifies Mover()`score, Mover()`letterTiles
      ensures turn == null ==>
        r == Err(NullPointer) && skippedPlayers == old(skippedPlayers) && board.Snapshot() == old(board.Snapshot())
      ensures turn != null && !old(turn.CanTakeChallengeAction(challenger)) ==>
        r == Ok(()) && Staked() == old(Staked()) && turn.challengeActionTaken == old(turn.challengeActionTaken)
      ensures turn != null && old(turn.CanTakeChallengeAction(challenger)) ==>
        && turn.challengeActionTaken
        && (Staked(), r) == Challenge(old(Staked()), old(turn.playedMove.value), challenger, isValidWord)
      ensures Valid()
    {
      if turn == null {
        return Err(NullPointer);
      }
      if !turn.CanTakeChallengeAction(challenger) {
        return Ok(());
      }
      turn.TakeChallengeAction(challenger);
      assert Staked() == old(Staked());
      StillValid();
      r := Contest(challenger, order);
    }

    /** A challenge once the gate has closed: the move's words are judged, then the challenger skipped or the move rescinded. */
    method Contest(challenger: Player, order: seq<Position>) returns (r: Result<()>)
      requires Valid() && turn != null && turn.playedMove.Some? && !turn.endActionTaken
      requires Distinct(order) && forall q :: q in order <==> q in turn.triggered
      modifies this`skippedPlayers, board.squares.Values, turn`triggered, turn`playedMove, turn.player`score, turn.player`letterTiles
      ensures (Staked(), r) == Challenge(old(Staked()), old(turn.playedMove.value), challenger, isValidWord)
      ensures Valid()
    {
      var verdict := Judge(turn.playedMove.value);
      assert board.Snapshot() == old(board.Snapshot());
      r := Decide(challenger, order, verdict, Staked());
    }

    /** The words the move forms on the live board, put to the dictionary (see `Verdict`). */
    method Judge(move: Move) returns (r: Result<bool>)
      requires board.Keyed() && move.Valid()
      ensures r == Verdict(board.Snapshot(), move, isValidWord)
    {
      var words := Words(board, move);
      if words.Err? {
        return Err(words.fault);
      }
      r := AllWordsValid(words.value);
    }

    /** What follows the verdict: an exception stops the challenge, a pass skips the challenger, a failure rescinds the move. */
    method Decide(challenger: Player, order: seq<Position>, verdict: Result<bool>, ghost s: Stakes) returns (r: Result<()>)
      requires Valid() && turn != null && turn.playedMove.Some? && !turn.endActionTaken
      requires Distinct(order) && forall q :: q in order <==> q in turn.triggered
      requires s == Staked() && Grid(s.board) && s.played.Some?
      requires verdict == Verdict(s.board, s.played.value, isValidWord)
      modifies this`skippedPlayers, board.squares.Values, turn`triggered, turn`playedMove, turn.player`score, turn.player`letterTiles
      ensures (Staked(), r) == Challenge(s, s.played.value, challenger, isValidWord)
      ensures Valid()
    {
      if verdict.Err? {
        return Err(verdict.fault);
      }
      if verdict.value {
        SkipTurn(challenger);
        StillValid();
        return Ok(());
      }
      r := Overturn(turn.playedMove.value, order);
    }

    /** A challenge that found a bad word: the move is scored once more, then rescinded (see `Retract`). */
    method Overturn(move: Move, order: seq<Position>) returns (r: Result<()>)
      requires Valid() && turn != null && turn.playedMove == Some(move) && !turn.endActionTaken
      requires Distinct(order) && forall q :: q in order <==> q in turn.triggered
      modifies board.squares.Values, turn`triggered, turn`playedMove, turn.player`score, turn.player`letterTiles
      ensures var total := old(TotalScoreOf(board.Snapshot(), move));
        (Staked(), r) == if total.Err? then (old(Staked()), Err(total.fault)) else (Rescinded(old(Staked()), move, total.value), Ok(()))
      ensures Valid()
    {
      var total := TotalScore(board, move);
      assert board.Snapshot() == old(board.Snapshot());
      if total.Err? {
        return Err(total.fault);
      }
      Retract(move, order, total.value);
      r := Ok(());
    }

    /** The move is rescinded (see `Rescind`), which keeps the invariant. */
    method Retract(move: Move, order: seq<Position>, total: int)
      requires Valid() && turn != null && turn.playedMove == Some(move) && !turn.endActionTaken
      requires Distinct(order) && forall q :: q in order <==> q in turn.triggered
      modifies board.squares.Values, turn`triggered, turn`playedMove, turn.player`score, turn.player`letterTiles
      ensures Staked() == Rescinded(old(Staked()), move, total)
      ensures Valid()
    {
      Rescind(move, order, total);
      RolledBackIsValid(move);
    }

    /**
     * The rollback itself: the mover's score drops by `total`, the move's
     * letters go back onto the rack, and the logged special tiles go back
     * onto their squares (see `Restore`). A standing move makes every step
     * succeed, so no exception escapes.
     */
    method Rescind(move: Move, order: seq<Position>, total: int)
      requires board.Valid() && turn != null && move.Valid() && Stands(board.Snapshot(), move.placements, turn.triggered)
      requires Distinct(order) && forall q :: q in order <==> q in turn.triggered
      modifies board.squares.Values, turn`triggered, turn`playedMove, turn.player`score, turn.player`letterTiles
      ensures board.Snapshot() == RolledBack(old(board.Snapshot()), move.placements, old(turn.triggered))
      ensures turn.player.letterTiles == old(turn.player.letterTiles) + TilesOf(move.placements)
      ensures turn.player.score == old(turn.player.score) - total
      ensures turn.triggered == map[] && turn.playedMove == None
    {
      ghost var b := board.Snapshot();
      var all := turn.triggered;
      Forget(total);
      Restore(turn.player, move, all, order, b);
    }

    /**
     * The rollback's changes to the mover and the turn: the score drops by
     * `total`, the log is cleared and the move unset. These touch neither
     * the board nor each other, so doing them together, before the tiles
     * move, changes nothing Java's order would give.
     */
    method Forget(total: int)
      requires turn != null
      modifies turn`triggered, turn`playedMove, turn.player`score
      ensures turn.player.score == old(turn.player.score) - total
      ensures turn.triggered == map[] && turn.playedMove == None
      ensures board.Snapshot() == old(board.Snapshot())
    {
      turn.player.SetScore(turn.player.score - total);
      turn.ClearTriggeredSpecialTiles();
      turn.SetPlayedMove(None);
    }

    /** A move rolled back and forgotten by its turn leaves the invariant holding. */
    twostate lemma RolledBackIsValid(new move: Move)
      requires old(Valid()) && turn != null && old(turn) == turn
      requires old(turn.playedMove) == Some(move) && !old(turn.endActionTaken)
      requires unchanged(board, tileStore.maps) && playerIndex == old(playerIndex)
      requires board.Snapshot() == RolledBack(old(board.Snapshot()), move.placements, old(turn.triggered))
      requires turn.playedMove == None && turn.triggered == map[]
      ensures Valid()
    {
      RolledBackKeepsOneTilePerOwner(old(board.Snapshot()), move.placements, old(turn.triggered));
    }

    /** The letters of a standing move go back onto `player`'s rack, then the tiles of `log` back onto their squares. */
    method Restore(player: Player, move: Move, log: map<Position, seq<SpecialTile>>, order: seq<Position>, ghost b: BoardState)
      requires board.Valid() && move.Valid() && board.Snapshot() == b && Stands(b, move.placements, log)
      requires Distinct(order) && forall q :: q in order <==> q in log
      modifies board.squares.Values, player`letterTiles
      ensures player.letterTiles == old(player.letterTiles) + TilesOf(move.placements)
      ensures board.Snapshot() == RolledBack(b, move.placements, log)
    {
      RollbackOfStandingMove(b, move.placements, log, order, player.letterTiles);
      var picked := ReturnLetters(player, move.Positions());
      var replaced := PutBack(log, order);
    }

    /** The pickup loop: each position's letter, in order, comes off the board and onto the end of `player`'s rack (see `PickupAll`). */
    method ReturnLetters(player: Player, qs: seq<Position>) returns (r: Result<()>)
      requires board.Valid()
      modifies board.squares.Values, player`letterTiles
      ensures (board.Snapshot(), player.letterTiles, r) == PickupAll(old(board.Snapshot()), qs, old(player.letterTiles))
    {
      var i := 0;
      while i < |qs|
        invariant 0 <= i <= |qs|
        invariant PickupAll(old(board.Snapshot()), qs, old(player.letterTiles)) == PickupAll(board.Snapshot(), qs[i..], player.letterTiles)
      {
        r := ReturnOne(player, qs, i);
        if r.Err? {
          return;
        }
        i := i + 1;
      }
      assert qs[i..] == [];
      r := Ok(());
    }

    /** One round of the pickup loop: `board.pickupLetterTile(qs[i])`, and the tile found onto the rack. */
    method ReturnOne(player: Player, qs: seq<Position>, i: nat) returns (r: Result<()>)
      requires board.Valid() && i < |qs|
      modifies board.squares.Values, player`letterTiles
      ensures r.Err? ==> (board.Snapshot(), player.letterTiles, r) == PickupAll(old(board.Snapshot()), qs[i..], old(player.letterTiles))
      ensures r.Ok? ==>
        PickupAll(old(board.Snapshot()), qs[i..], old(player.letterTiles)) == PickupAll(board.Snapshot(), qs[i + 1..], player.letterTiles)
    {
      PickupAllFrom(board.Snapshot(), qs, i, player.letterTiles);
      var tile := board.PickupLetterTile(qs[i]);
      if tile.Err? {
        return Err(tile.fault);
      }
      player.letterTiles := WithTile(player.letterTiles, tile.value);
      r := Ok(());
    }

    /** The outer re-placing loop: the tiles logged at each square of `order` go back (see `ReplaceAll`). */
    method PutBack(log: map<Position, seq<SpecialTile>>, order: seq<Position>) returns (r: Result<()>)
      requires board.Valid()
      modifies board.squares.Values
      ensures (board.Snapshot(), r) == ReplaceAll(old(board.Snapshot()), log, order)
    {
      var i := 0;
      while i < |order|
        invariant 0 <= i <= |order|
        invariant ReplaceAll(old(board.Snapshot()), log, order) == ReplaceAll(board.Snapshot(), log, order[i..])
      {
        ReplaceAllFrom(board.Snapshot(), log, order, i);
        r := PutBackAt(order[i], LogAt(log, order[i]));
        if r.Err? {
          return;
        }
        i := i + 1;
      }
      assert order[i..] == [];
      r := Ok(());
    }

    /** The inner re-placing loop: `board.placeSpecialTile` for each of `ts` at `q`, in order (see `PlaceSpecials`). */
    method PutBackAt(q: Position, ts: seq<SpecialTile>) returns (r: Result<()>)
      requires board.Valid()
      modifies board.squares.Values
      ensures (board.Snapshot(), r) == PlaceSpecials(old(board.Snapshot()), q, ts)
    {
      var i := 0;
      while i < |ts|
        invariant 0 <= i <= |ts|
        invariant PlaceSpecials(old(board.Snapshot()), q, ts) == PlaceSpecials(board.Snapshot(), q, ts[i..])
      {
        PlaceSpecialsFrom(board.Snapshot(), q, ts, i);
        r := board.PlaceSpecialTile(q, ts[i]);
        if r.Err? {
          return;
        }
        OkUnit(r);
        i := i + 1;
      }
      assert ts[i..] == [];
      r := Ok(());
    }

    // -------------------------------------------------------------------------
    // Ending a turn
    // -------------------------------------------------------------------------

    /**
     * One tile's `performAction`, triggered at `position`, with `current`
     * the current player and `lastMove` the turn's move, while the scores
     * have so far changed by `gains` (see `Trigger`): the board, the turn
     * direction and the scores of `current` and the tile's owner change as
     * the value-level step says.
     */
    method PerformAction(tile: SpecialTile, position: Position, current: Player, lastMove: Option<Move>, ghost gains: map<Player, int>)
      returns (r: Result<()>)
      requires board.Valid() && (lastMove.Some? ==> lastMove.value.Valid())
      modifies board.squares.Values, this`turnDirection, current`score, tile.owner`score
      ensures var step := Trigger(Tally(old(board.Snapshot()), old(turnDirection), gains), tile, position, current, lastMove);
        && board.Snapshot() == step.0.board && turnDirection == step.0.direction && r == step.1
        && current.score == old(current.score) + GainOf(step.0.gains, current) - GainOf(gains, current)
        && tile.owner.score == old(tile.owner.score) + GainOf(step.0.gains, tile.owner) - GainOf(gains, tile.owner)
    {
      match tile.kind
      case Reverse =>
        r := Turnabout(tile, position, current, lastMove, gains);
      case SkipTurn =>
        r := Err(Unmodelled);
      case NegativePoints =>
        r := Negate(tile, position, current, lastMove, gains);
      case StealScore =>
        r := Steal(tile, position, current, lastMove, gains);
      case Boom =>
        r := Explode(tile, position, current, lastMove, gains);
    }

    /** `ReverseSpecialTile.performAction`: the game's `reverseTurnDirection`. */
    method Turnabout(tile: SpecialTile, position: Position, current: Player, lastMove: Option<Move>, ghost gains: map<Player, int>)
      returns (r: Result<()>)
      requires tile.kind == Reverse
      requires board.Valid() && (lastMove.Some? ==> lastMove.value.Valid())
      modifies board.squares.Values, this`turnDirection, current`score, tile.owner`score
      ensures var step := Trigger(Tally(old(board.Snapshot()), old(turnDirection), gains), tile, position, current, lastMove);
        && board.Snapshot() == step.0.board && turnDirection == step.0.direction && r == step.1
        && current.score == old(current.score) + GainOf(step.0.gains, current) - GainOf(gains, current)
        && tile.owner.score == old(tile.owner.score) + GainOf(step.0.gains, tile.owner) - GainOf(gains, tile.owner)
    {
      ReverseTurnDirection();
      r := Ok(());
    }

    /** `NegativePointsSpecialTile.performAction` (see `NegativePointsAction`). */
    method Negate(tile: SpecialTile, position: Position, current: Player, lastMove: Option<Move>, ghost gains: map<Player, int>)
      returns (r: Result<()>)
      requires tile.kind == NegativePoints
      requires board.Valid() && (lastMove.Some? ==> lastMove.value.Valid())
      modifies board.squares.Values, this`turnDirection, current`score, tile.owner`score
      ensures var step := Negated(Tally(old(board.Snapshot()), old(turnDirection), gains), current, lastMove);
        && board.Snapshot() == step.0.board && turnDirection == step.0.direction && r == step.1
        && current.score == old(current.score) + GainOf(step.0.gains, current) - GainOf(gains, current)
        && tile.owner.score == old(tile.owner.score) + GainOf(step.0.gains, tile.owner) - GainOf(gains, tile.owner)
    {
      ghost var t := Tally(board.Snapshot(), turnDirection, gains);
      ghost var c0, o0 := current.score, tile.owner.score;
      r := NegativePointsAction(board, lastMove, current);
      NegatedScores(t, current, tile.owner, lastMove, r, c0, current.score, o0, tile.owner.score);
    }

    /** `StealScoreSpecialTile.performAction` (see `StealScoreAction`). */
    method Steal(tile: SpecialTile, position: Position, current: Player, lastMove: Option<Move>, ghost gains: map<Player, int>)
      returns (r: Result<()>)
      requires tile.kind == StealScore
      requires board.Valid() && (lastMove.Some? ==> lastMove.value.Valid())
      modifies board.squares.Values, this`turnDirection, current`score, tile.owner`score
      ensures var step := Stolen(Tally(old(board.Snapshot()), old(turnDirection), gains), tile.owner, current, lastMove);
        && board.Snapshot() == step.0.board && turnDirection == step.0.direction && r == step.1
        && current.score == old(current.score) + GainOf(step.0.gains, current) - GainOf(gains, current)
        && tile.owner.score == old(tile.owner.score) + GainOf(step.0.gains, tile.owner) - GainOf(gains, tile.owner)
    {
      ghost var t := Tally(board.Snapshot(), turnDirection, gains);
      ghost var c0, o0 := current.score, tile.owner.score;
      r := StealScoreAction(board, lastMove, current, tile.owner);
      assert board.Snapshot() == t.board;
      StolenScores(t, current, tile.owner, lastMove, r, c0, current.score, o0, tile.owner.score);
    }

    /** `BoomSpecialTile.performAction` (see `BoomAction`). */
    method Explode(tile: SpecialTile, position: Position, current: Player, lastMove: Option<Move>, ghost gains: map<Player, int>)
      returns (r: Result<()>)
      requires tile.kind == Boom
      requires board.Valid() && (lastMove.Some? ==> lastMove.value.Valid())
      modifies board.squares.Values, this`turnDirection, current`score, tile.owner`score
      ensures var step := Blasted(Tally(old(board.Snapshot()), old(turnDirection), gains), position, current, lastMove);
        && board.Snapshot() == step.0.board && turnDirection == step.0.direction && r == step.1
        && current.score == old(current.score) + GainOf(step.0.gains, current) - GainOf(gains, current)
        && tile.owner.score == old(tile.owner.score) + GainOf(step.0.gains, tile.owner) - GainOf(gains, tile.owner)
    {
      ghost var t := Tally(board.Snapshot(), turnDirection, gains);
      ghost var c0, o0 := current.score, tile.owner.score;
      r := BoomAction(board, lastMove, position, current);
      BlastedScores(t, position, current, tile.owner, lastMove, r, board.Snapshot(), c0, current.score, o0, tile.owner.score);
    }

    /**
     * The inner loop of `endTurn`: the tiles logged at `position` act one
     * after the other, from tally `t` on, until one throws. `scored` holds
     * every player they can credit: `current` and the tiles' owners.
     */
    method FireAt(position: Position, ts: seq<SpecialTile>, current: Player, lastMove: Option<Move>,
                  ghost scored: set<Player>, ghost t: Tally)
      returns (r: Result<()>)
      requires board.Valid() && (lastMove.Some? ==> lastMove.value.Valid())
      requires board.Snapshot() == t.board && turnDirection == t.direction
      requires current in scored && forall i :: 0 <= i < |ts| ==> ts[i].owner in scored
      modifies board.squares.Values, this`turnDirection, scored`score
      ensures var fired := TriggerList(t, ts, position, current, lastMove);
        && board.Snapshot() == fired.0.board && turnDirection == fired.0.direction && r == fired.1
        && forall p :: p in scored ==> p.score == old(p.score) + GainOf(fired.0.gains, p) - GainOf(t.gains, p)
    {
      ghost var u := t;
      var i := 0;
      while i < |ts|
        invariant i <= |ts| && board.Snapshot() == u.board && turnDirection == u.direction
        invariant TriggerList(t, ts, position, current, lastMove) == TriggerList(u, ts[i..], position, current, lastMove)
        invariant forall p :: p in scored ==> p.score == old(p.score) + GainOf(u.gains, p) - GainOf(t.gains, p)
      {
        var acted, v := FireTile(position, ts, i, current, lastMove, scored, u);
        if acted.Err? {
          return acted;
        }
        u := v;
        i := i + 1;
      }
      return Ok(());
    }

    /** One round of the inner loop: tile `ts[i]` acts, from tally `u` on, which leaves tally `v`. */
    method FireTile(position: Position, ts: seq<SpecialTile>, i: nat, current: Player, lastMove: Option<Move>,
                    ghost scored: set<Player>, ghost u: Tally)
      returns (r: Result<()>, ghost v: Tally)
      requires board.Valid() && (lastMove.Some? ==> lastMove.value.Valid())
      requires i < |ts| && current in scored && ts[i].owner in scored
      requires board.Snapshot() == u.board && turnDirection == u.direction
      modifies board.squares.Values, this`turnDirection, scored`score
      ensures board.Snapshot() == v.board && turnDirection == v.direction
      ensures forall p :: p in scored ==> p.score == old(p.score) + GainOf(v.gains, p) - GainOf(u.gains, p)
      ensures r.Err? ==> TriggerList(u, ts[i..], position, current, lastMove) == (v, r)
      ensures r.Ok? ==> TriggerList(u, ts[i..], position, current, lastMove) == TriggerList(v, ts[i + 1..], position, current, lastMove)
    {
      TriggerListFrom(u, ts, i, position, current, lastMove);
      ghost var step := Trigger(u, ts[i], position, current, lastMove);
      forall p | p != current && p != ts[i].owner
        ensures GainOf(step.0.gains, p) == GainOf(u.gains, p)
      {
        TriggerGainsAt(u, ts[i], position, current, lastMove, p);
      }
      v := step.0;
      r := PerformAction(ts[i], position, current, lastMove, u.gains);
    }

    /**
     * The outer loop of `endTurn`: the squares of the log in `order`, each
     * square's tiles in turn, from the scores as they stand, until a tile
     * throws.
     */
    method FireAll(log: map<Position, seq<SpecialTile>>, order: seq<Position>, current: Player, lastMove: Option<Move>,
                   ghost scored: set<Player>)
      returns (r: Result<()>)
      requires board.Valid() && (lastMove.Some? ==> lastMove.value.Valid())
      requires current in scored && Owners(log, order) <= scored
      modifies board.squares.Values, this`turnDirection, scored`score
      ensures var fired := TriggerLog(Tally(old(board.Snapshot()), old(turnDirection), map[]), log, order, current, lastMove);
        && board.Snapshot() == fired.0.board && turnDirection == fired.0.direction && r == fired.1
        && forall p :: p in scored ==> p.score == old(p.score) + GainOf(fired.0.gains, p)
    {
      ghost var t := Tally(board.Snapshot(), turnDirection, map[]);
      ghost var u := t;
      var i := 0;
      while i < |order|
        invariant i <= |order| && board.Snapshot() == u.board && turnDirection == u.direction
        invariant TriggerLog(t, log, order, current, lastMove) == TriggerLog(u, log, order[i..], current, lastMove)
        invariant forall p :: p in scored ==> p.score == old(p.score) + GainOf(u.gains, p)
      {
        var fired, v := FireSquare(log, order, i, current, lastMove, scored, u);
        if fired.Err? {
          return fired;
        }
        u := v;
        i := i + 1;
      }
      return Ok(());
    }

    /** One round of the outer loop: the tiles logged at `order[i]` act, from tally `u` on, which leaves tally `v`. */
    method FireSquare(log: map<Position, seq<SpecialTile>>, order: seq<Position>, i: nat, current: Player, lastMove: Option<Move>,
                      ghost scored: set<Player>, ghost u: Tally)
      returns (r: Result<()>, ghost v: Tally)
      requires board.Valid() && (lastMove.Some? ==> lastMove.value.Valid())
      requires i < |order| && current in scored && Owners(log, order) <= scored
      requires board.Snapshot() == u.board && turnDirection == u.direction
      modifies board.squares.Values, this`turnDirection, scored`score
      ensures board.Snapshot() == v.board && turnDirection == v.direction
      ensures forall p :: p in scored ==> p.score == old(p.score) + GainOf(v.gains, p) - GainOf(u.gains, p)
      ensures r.Err? ==> TriggerLog(u, log, order[i..], current, lastMove) == (v, r)
      ensures r.Ok? ==> TriggerLog(u, log, order[i..], current, lastMove) == TriggerLog(v, log, order[i + 1..], current, lastMove)
    {
      TriggerLogFrom(u, log, order, i, current, lastMove);
      var ts := LogAt(log, order[i]);
      OwnersAt(log, order, i, scored);
      v := TriggerList(u, ts, order[i], current, lastMove).0;
      r := FireAt(order[i], ts, current, lastMove, scored, u);
    }

    /** The players whose scores ending the turn can change: the turn's player and the owners of the tiles it triggered. */
    ghost function Stakeholders(order: seq<Position>): set<Player>
      reads this`turn, {turn}`triggered
    {
      if turn == null then {} else {turn.player} + Owners(turn.triggered, order)
    }

    /** What the tiles triggered this turn leave once they act, square by square in `order`, on the live board and direction. */
    ghost function Firing(order: seq<Position>): (Tally, Result<()>)
      requires Valid() && turn != null
      reads this, board, board.squares.Values, tileStore.maps, turn
    {
      TriggerLog(Tally(board.Snapshot(), turnDirection, map[]), turn.triggered, order, turn.player, turn.playedMove)
    }

    /**
     * `endTurn`: the turn's player closes the turn; the move (if any) makes
     * the first move taken; every triggered tile acts (square by square in
     * `order`, the iteration order of the log's keys); then the player
     * draws back up to seven, and the game ends if the bag is empty or
     * passes to the next player. Anyone else is ignored, and before the
     * first turn Java dereferences null.
     */
    method EndTurn(player: Player, order: seq<Position>) returns (r: Result<()>)
      requires Valid()
      requires turn != null ==> Enumerates(order, turn.triggered)
      modifies this`firstMoveTaken, this`playerIndex, this`skippedPlayers, this`turn, this`turnDirection, board.squares.Values
      modifies {turn}`endActionTaken, tileBag`tiles, tileBag`draws, Mover()`letterTiles, Stakeholders(order)`score
      ensures old(turn) == null ==>
        && r == Err(NullPointer) && turn == null
        && firstMoveTaken == old(firstMoveTaken) && turnDirection == old(turnDirection)
        && playerIndex == old(playerIndex) && skippedPlayers == old(skippedPlayers)
        && board.Snapshot() == old(board.Snapshot()) && tileBag.tiles == old(tileBag.tiles) && tileBag.draws == old(tileBag.draws)
      ensures old(turn) != null && !old(turn.CanTakeEndAction(player)) ==>
        && r == Ok(()) && turn == old(turn) && turn.endActionTaken == old(turn.endActionTaken)
        && firstMoveTaken == old(firstMoveTaken) && turnDirection == old(turnDirection)
        && playerIndex == old(playerIndex) && skippedPlayers == old(skippedPlayers)
        && board.Snapshot() == old(board.Snapshot()) && tileBag.tiles == old(tileBag.tiles) && tileBag.draws == old(tileBag.draws)
        && turn.player.letterTiles == old(turn.player.letterTiles)
        && ScoreMap(old(Stakeholders(order))) == old(ScoreMap(Stakeholders(order)))
      ensures old(turn) != null && old(turn.CanTakeEndAction(player)) ==>
        var fired := old(Firing(order));
        && old(turn).endActionTaken
        && firstMoveTaken == (old(firstMoveTaken) || old(turn.playedMove).Some?)
        && board.Snapshot() == fired.0.board
        && (forall p :: p in old(Stakeholders(order)) ==> p.score == old(p.score) + GainOf(fired.0.gains, p))
        && (fired.1.Err? ==>
          && r == fired.1 && turn == old(turn) && turnDirection == fired.0.direction
          && playerIndex == old(playerIndex) && skippedPlayers == old(skippedPlayers)
          && tileBag.tiles == old(tileBag.tiles) && tileBag.draws == old(tileBag.draws)
          && turn.player.letterTiles == old(turn.player.letterTiles))
        && (fired.1.Ok? ==> Replenished(old(Pending()), fired.0.direction, r))
      ensures Valid()
    {
      if turn == null {
        return Err(NullPointer);
      }
      if !turn.CanTakeEndAction(player) {
        return Ok(());
      }
      r := Close(player, order, Firing(order), Pending());
    }

    /** `endTurn` past its gate: the turn closes, then the tiles act and the player draws. */
    method Close(player: Player, order: seq<Position>, ghost fired: (Tally, Result<()>), ghost c: Closing) returns (r: Result<()>)
      requires Valid() && turn != null && turn.CanTakeEndAction(player)
      requires fired == TriggerLog(Tally(board.Snapshot(), turnDirection, map[]), turn.triggered, order, turn.player, turn.playedMove)
      requires c == Pending()
      modifies this`firstMoveTaken, this`playerIndex, this`skippedPlayers, this`turn, this`turnDirection, board.squares.Values
      modifies turn`endActionTaken, tileBag`tiles, tileBag`draws, turn.player`letterTiles, Stakeholders(order)`score
      ensures old(turn).endActionTaken
      ensures firstMoveTaken == (old(firstMoveTaken) || c.last.playedMove.Some?)
      ensures board.Snapshot() == fired.0.board
      ensures forall p :: p in old(Stakeholders(order)) ==> p.score == old(p.score) + GainOf(fired.0.gains, p)
      ensures fired.1.Err? ==>
        && r == fired.1 && turn == c.last && turnDirection == fired.0.direction
        && playerIndex == c.index && skippedPlayers == c.skipped
        && tileBag.tiles == c.bag && tileBag.draws == c.draws && c.last.player.letterTiles == c.rack
      ensures fired.1.Ok? ==> Replenished(c, fired.0.direction, r)
      ensures Valid()
    {
      ghost var scored := Stakeholders(order);
      ghost var before := ScoreMap(scored);
      Shut(player);
      assert ScoreMap(scored) == before;
      r := Conclude(order, scored, fired, c);
    }

    /** `takeEndAction`, then a move played this turn makes the first move taken. */
    method Shut(player: Player)
      requires Valid() && turn != null && turn.CanTakeEndAction(player)
      modifies this`firstMoveTaken, turn`endActionTaken
      ensures turn.endActionTaken && firstMoveTaken == (old(firstMoveTaken) || turn.playedMove.Some?)
      ensures unchanged(board.squares.Values)
      ensures Valid()
    {
      turn.TakeEndAction(player);
      firstMoveTaken := firstMoveTaken || turn.playedMove.Some?;
      StillValid();
    }

    /**
     * What the end of a turn leaves once every tile has acted, starting
     * from `c`: the turn's player (`c.last.player`) has drawn from the bag,
     * then the game is over (the bag is empty and the turn stays) or the
     * next player's fresh turn has begun, in the turn direction `direction`,
     * passing over the skipped.
     */
    ghost predicate Replenished(c: Closing, direction: TurnDirection, r: Result<()>)
      reads this, tileBag, c.last.player, turn
    {
      var n := Need(|c.rack|, |c.bag|, PlayerTileLimit);
      var d := Draws(c.bag, tileBag.random, c.draws, n);
      && c.last.player.letterTiles == c.rack + d.0 && tileBag.tiles == d.1 && tileBag.draws == c.draws + n
      && turnDirection == direction && r == Ok(())
      && (d.1 == [] ==> turn == c.last && playerIndex == c.index && skippedPlayers == c.skipped)
      && (d.1 != [] ==>
        0 <= playerIndex < |players| && (playerIndex, skippedPlayers) == Advance(players, c.skipped, c.index, Delta(direction))
        && turn != null && turn.player == players[playerIndex] && Untouched(turn))
    }

    /**
     * `endTurn` once the gate has let the turn's player through: the first
     * move is recorded, the triggered tiles act, and the player draws.
     */
    method Conclude(order: seq<Position>, ghost scored: set<Player>, ghost fired: (Tally, Result<()>), ghost c: Closing)
      returns (r: Result<()>)
      requires Valid() && turn != null && turn.endActionTaken && scored == Stakeholders(order)
      requires fired == TriggerLog(Tally(board.Snapshot(), turnDirection, map[]), turn.triggered, order, turn.player, turn.playedMove)
      requires c == Pending()
      modifies this`playerIndex, this`skippedPlayers, this`turn, this`turnDirection, board.squares.Values
      modifies tileBag`tiles, tileBag`draws, turn.player`letterTiles, scored`score
      ensures firstMoveTaken == old(firstMoveTaken) && board.Snapshot() == fired.0.board
      ensures forall p :: p in scored ==> p.score == old(p.score) + GainOf(fired.0.gains, p)
      ensures fired.1.Err? ==>
        && r == fired.1 && turn == c.last && turnDirection == fired.0.direction
        && playerIndex == c.index && skippedPlayers == c.skipped
        && tileBag.tiles == c.bag && tileBag.draws == c.draws && c.last.player.letterTiles == c.rack
      ensures fired.1.Ok? ==> Replenished(c, fired.0.direction, r)
      ensures Valid()
    {
      var outcome := Fire(order, scored, fired);
      if outcome.Err? {
        return outcome;
      }
      r := Replenish(c, fired.0.direction);
    }

    /** The triggered tiles act, which keeps the invariant of a closed turn. */
    method Fire(order: seq<Position>, ghost scored: set<Player>, ghost fired: (Tally, Result<()>)) returns (r: Result<()>)
      requires Valid() && turn != null && turn.endActionTaken && scored == Stakeholders(order)
      requires fired == TriggerLog(Tally(board.Snapshot(), turnDirection, map[]), turn.triggered, order, turn.player, turn.playedMove)
      modifies board.squares.Values, this`turnDirection, scored`score
      ensures board.Snapshot() == fired.0.board && turnDirection == fired.0.direction && r == fired.1
      ensures forall p :: p in scored ==> p.score == old(p.score) + GainOf(fired.0.gains, p)
      ensures Valid()
    {
      r := FireAll(turn.triggered, order, turn.player, turn.playedMove, scored);
      FiredIsValid();
    }

    /** The tiles' actions keep the invariant: they only keep or clear special tiles, and the closed turn no longer needs its move to stand. */
    twostate lemma FiredIsValid()
      requires old(Valid()) && turn != null && turn == old(turn) && turn.endActionTaken
      requires unchanged(tileStore.maps) && playerIndex == old(playerIndex)
      requires turn.triggered == old(turn.triggered) && turn.playedMove == old(turn.playedMove)
      requires turn.letterActionTaken == old(turn.letterActionTaken)
      requires KeepsOrClearsSpecials(old(board.Snapshot()), board.Snapshot())
      ensures Valid()
    {
      KeepsOrClearsKeepsOneTilePerOwner(old(board.Snapshot()), board.Snapshot());
    }

    /**
     * The end of `endTurn`: the turn's player draws, then the game ends
     * (the winner goes to the listeners) or the next player's turn begins.
     */
    method Replenish(ghost c: Closing, ghost direction: TurnDirection) returns (r: Result<()>)
      requires Valid() && turn != null && turn.endActionTaken && c == Pending() && direction == turnDirection
      modifies this`playerIndex, this`skippedPlayers, this`turn, tileBag`tiles, tileBag`draws, turn.player`letterTiles
      ensures Replenished(c, direction, r)
      ensures unchanged(board.squares.Values) && board.Snapshot() == old(board.Snapshot())
      ensures firstMoveTaken == old(firstMoveTaken)
      ensures Valid()
    {
      DrawTilesForPlayer(turn.player);
      assert Valid();
      r := Pass();
    }

    /** The game ends if the bag is empty (the winner goes only to the listeners), and otherwise passes to the next player. */
    method Pass() returns (r: Result<()>)
      requires Valid() && turn != null
      modifies this`playerIndex, this`skippedPlayers, this`turn
      ensures r == Ok(()) && firstMoveTaken == old(firstMoveTaken) && turnDirection == old(turnDirection)
      ensures IsGameOver() ==> turn == old(turn) && playerIndex == old(playerIndex) && skippedPlayers == old(skippedPlayers)
      ensures !IsGameOver() ==>
        && 0 <= playerIndex < |players| && (playerIndex, skippedPlayers) == Advance(players, old(skippedPlayers), old(playerIndex), Delta(turnDirection))
        && turn != null && turn.player == players[playerIndex] && Untouched(turn)
      ensures Valid()
    {
      if IsGameOver() {
        // The turn's player is one of the players, so there is a winner.
        var winner := HighestScoringPlayer();
        r := Ok(());
      } else {
        r := AdvancePlayer();
        AdvancedIsValid();
      }
    }
  }
}
