/**
 * What the special tiles a move set off do when its turn ends, as values
 * (game/SWSGame.java `endTurn`, and the `performAction` of each default
 * special tile). Each tile changes some of: the board, the turn direction
 * and players' scores. `Tally` collects the three; the folds below run the
 * tiles of the trigger log in iteration order, stopping at the first
 * exception. `Game.EndTurn` in module Games runs that loop on live objects;
 * its `ensures` gives the board, the turn direction and the scores it
 * leaves as those of `TriggerLog`.
 */
module EffectRules {
  import opened Wrappers
  import opened Geometry
  import opened Players
  import opened Moves
  import opened BoardStates
  import opened Boards
  import opened Scoring
  import opened SpecialEffects
  import opened GameRules

  /**
   * The board, the turn direction, and how much each player's score has
   * changed so far (a player missing from the map has not changed).
   */
  datatype Tally = Tally(board: BoardState, direction: TurnDirection, gains: map<Player, int>)

  /** How much `p`'s score has changed. */
  function GainOf(gains: map<Player, int>, p: Player): int
  {
    if p in gains then gains[p] else 0
  }

  /** `x` points more for `p`. */
  function Credit(gains: map<Player, int>, p: Player, x: int): map<Player, int>
  {
    gains[p := GainOf(gains, p) + x]
  }

  /** Only the players in `ps` have a different gain in `after` than in `before`. */
  predicate ChangesOnly(before: map<Player, int>, after: map<Player, int>, ps: set<Player>)
  {
    forall q | q in before.Keys + after.Keys && q !in ps :: GainOf(after, q) == GainOf(before, q)
  }

  /**
   * One tile's `performAction`, triggered at `position`, while `current`
   * is the game's current player and `lastMove` its last move:
   * - reverse flips the turn direction;
   * - negate points takes twice the last move's word scores from the
   *   current player, up to the first null word;
   * - steal score moves them from the current player to the tile's owner;
   * - boom blasts the square of radius 3 around `position` and replaces the
   *   move's total score by its score on what is left;
   * - the skip-turn tile's class is not part of this model: its action is
   *   marked `Unmodelled`, which stops the loop there, so nothing is
   *   claimed about it or about any tile after it.
   */
  function Trigger(t: Tally, tile: SpecialTile, position: Position, current: Player, lastMove: Option<Move>): (r: (Tally, Result<()>))
    requires Grid(t.board) && (lastMove.Some? ==> lastMove.value.Valid())
    ensures Grid(r.0.board) && KeepsOrClearsSpecials(t.board, r.0.board)
  {
    match tile.kind
    case Reverse => (t.(direction := Opposite(t.direction)), Ok(()))
    case SkipTurn => (t, Err(Unmodelled))
    case NegativePoints => Negated(t, current, lastMove)
    case StealScore => Stolen(t, tile.owner, current, lastMove)
    case Boom => Blasted(t, position, current, lastMove)
  }

  /** The negate-points action: twice the word scores off the current player's score. */
  function Negated(t: Tally, current: Player, lastMove: Option<Move>): (r: (Tally, Result<()>))
    requires Grid(t.board) && (lastMove.Some? ==> lastMove.value.Valid())
    ensures r.0.board == t.board && r.0.direction == t.direction
    ensures ChangesOnly(t.gains, r.0.gains, {current})
  {
    if lastMove.None? then (t, Err(NullPointer))
    else
      var words := WordsOf(t.board, lastMove.value);
      if words.Err? then (t, Err(words.fault))
      else
        var taken := ScoreBeforeNull(words.value);
        (t.(gains := Credit(t.gains, current, -2 * taken)), if AllPresent(words.value) then Ok(()) else Err(NullPointer))
  }

  /** The steal-score action: the word scores move from the current player to `owner`. */
  function Stolen(t: Tally, owner: Player, current: Player, lastMove: Option<Move>): (r: (Tally, Result<()>))
    requires Grid(t.board) && (lastMove.Some? ==> lastMove.value.Valid())
    ensures r.0.board == t.board && r.0.direction == t.direction
    ensures ChangesOnly(t.gains, r.0.gains, {current, owner})
  {
    if lastMove.None? then (t, Err(NullPointer))
    else
      var words := WordsOf(t.board, lastMove.value);
      if words.Err? then (t, Err(words.fault))
      else
        var taken := ScoreBeforeNull(words.value);
        var gains := if current == owner then t.gains
          else Credit(Credit(t.gains, current, -taken), owner, taken);
        (t.(gains := gains), if AllPresent(words.value) then Ok(()) else Err(NullPointer))
  }

  /** The boom action: the blast clears squares, and the move's score is replaced by its score on what is left. */
  function Blasted(t: Tally, position: Position, current: Player, lastMove: Option<Move>): (r: (Tally, Result<()>))
    requires Grid(t.board) && (lastMove.Some? ==> lastMove.value.Valid())
    ensures Grid(r.0.board) && KeepsOrClearsSpecials(t.board, r.0.board) && r.0.direction == t.direction
    ensures ChangesOnly(t.gains, r.0.gains, {current})
  {
    if lastMove.None? then (t, Err(NullPointer))
    else
      var original := TotalScoreOf(t.board, lastMove.value);
      if original.Err? then (t, Err(original.fault))
      else
        var removed := BlastSet(position);
        var blasted := ClearSet(t.board, removed);
        var newScore := NewScoreOf(blasted, lastMove.value, removed);
        if newScore.Err? then (t.(board := blasted), Err(newScore.fault))
        else (Tally(blasted, t.direction, Credit(t.gains, current, newScore.value - original.value)), Ok(()))
  }

  /** The inner loop of `endTurn`: the tiles logged at one square, in order. */
  function TriggerList(t: Tally, ts: seq<SpecialTile>, position: Position, current: Player, lastMove: Option<Move>): (r: (Tally, Result<()>))
    requires Grid(t.board) && (lastMove.Some? ==> lastMove.value.Valid())
    ensures Grid(r.0.board) && KeepsOrClearsSpecials(t.board, r.0.board)
    decreases |ts|
  {
    if ts == [] then (t, Ok(()))
    else
      var step := Trigger(t, ts[0], position, current, lastMove);
      if step.1.Err? then step
      else
        var rest := TriggerList(step.0, ts[1..], position, current, lastMove);
        KeepsOrClearsTwice(t.board, step.0.board, rest.0.board);
        rest
  }

  /** The outer loop of `endTurn`: the log's squares in iteration order. */
  function TriggerLog(t: Tally, log: map<Position, seq<SpecialTile>>, order: seq<Position>, current: Player, lastMove: Option<Move>): (r: (Tally, Result<()>))
    requires Grid(t.board) && (lastMove.Some? ==> lastMove.value.Valid())
    ensures Grid(r.0.board) && KeepsOrClearsSpecials(t.board, r.0.board)
    decreases |order|
  {
    if order == [] then (t, Ok(()))
    else
      var step := TriggerList(t, LogAt(log, order[0]), order[0], current, lastMove);
      if step.1.Err? then step
      else
        var rest := TriggerLog(step.0, log, order[1..], current, lastMove);
        KeepsOrClearsTwice(t.board, step.0.board, rest.0.board);
        rest
  }

  /** The inner loop from round `i` on. */
  lemma TriggerListFrom(t: Tally, ts: seq<SpecialTile>, i: nat, position: Position, current: Player, lastMove: Option<Move>)
    requires Grid(t.board) && (lastMove.Some? ==> lastMove.value.Valid()) && i < |ts|
    ensures var step := Trigger(t, ts[i], position, current, lastMove);
      TriggerList(t, ts[i..], position, current, lastMove) ==
        if step.1.Err? then step else TriggerList(step.0, ts[i + 1..], position, current, lastMove)
  {
    assert ts[i..][0] == ts[i] && ts[i..][1..] == ts[i + 1..];
  }

  /** The outer loop from round `i` on. */
  lemma TriggerLogFrom(t: Tally, log: map<Position, seq<SpecialTile>>, order: seq<Position>, i: nat, current: Player, lastMove: Option<Move>)
    requires Grid(t.board) && (lastMove.Some? ==> lastMove.value.Valid()) && i < |order|
    ensures var step := TriggerList(t, LogAt(log, order[i]), order[i], current, lastMove);
      TriggerLog(t, log, order[i..], current, lastMove) ==
        if step.1.Err? then step else TriggerLog(step.0, log, order[i + 1..], current, lastMove)
  {
    assert order[i..][0] == order[i] && order[i..][1..] == order[i + 1..];
  }

  /** `order` lists the log's squares, each once: an iteration order of its key set. */
  ghost predicate Enumerates(order: seq<Position>, log: map<Position, seq<SpecialTile>>)
  {
    Distinct(order) && forall q :: q in order <==> q in log
  }

  /** The players whose scores the log's tiles can change: the current player and the tiles' owners. */
  ghost function Owners(log: map<Position, seq<SpecialTile>>, order: seq<Position>): set<Player>
  {
    set i, j | 0 <= i < |order| && 0 <= j < |LogAt(log, order[i])| :: LogAt(log, order[i])[j].owner
  }

  /** The owners of the tiles logged at one square of `order` are among the log's owners. */
  lemma OwnersAt(log: map<Position, seq<SpecialTile>>, order: seq<Position>, i: nat, scored: set<Player>)
    requires i < |order| && Owners(log, order) <= scored
    ensures forall j :: 0 <= j < |LogAt(log, order[i])| ==> LogAt(log, order[i])[j].owner in scored
  {
    forall j | 0 <= j < |LogAt(log, order[i])|
      ensures LogAt(log, order[i])[j].owner in scored
    {
      assert LogAt(log, order[i])[j].owner in Owners(log, order);
    }
  }

  // ---------------------------------------------------------------------------
  // Properties
  // ---------------------------------------------------------------------------

  /** How many reverse tiles a list holds. */
  function Reverses(ts: seq<SpecialTile>): nat
  {
    if ts == [] then 0 else (if ts[0].kind == Reverse then 1 else 0) + Reverses(ts[1..])
  }

  /** How many reverse tiles the log holds at the squares of `order`. */
  function ReversesIn(log: map<Position, seq<SpecialTile>>, order: seq<Position>): nat
  {
    if order == [] then 0 else Reverses(LogAt(log, order[0])) + ReversesIn(log, order[1..])
  }

  /** `d` flipped `n` times. */
  function Turned(d: TurnDirection, n: nat): (e: TurnDirection)
    ensures n % 2 == 0 ==> e == d
    ensures n % 2 == 1 ==> e == Opposite(d)
  {
    if n == 0 then d else Opposite(Turned(d, n - 1))
  }

  /** Only a reverse tile turns the direction, and it turns it once. */
  lemma TriggerTurns(t: Tally, tile: SpecialTile, position: Position, current: Player, lastMove: Option<Move>)
    requires Grid(t.board) && (lastMove.Some? ==> lastMove.value.Valid())
    ensures Trigger(t, tile, position, current, lastMove).0.direction ==
      if tile.kind == Reverse then Opposite(t.direction) else t.direction
  {
  }

  /**
   * When every tile of a square's list has acted, the turn direction has
   * flipped once per reverse tile: an even number of reverse tiles leaves
   * it as it was.
   */
  lemma {:induction false} TriggerListDirection(t: Tally, ts: seq<SpecialTile>, position: Position, current: Player, lastMove: Option<Move>)
    requires Grid(t.board) && (lastMove.Some? ==> lastMove.value.Valid())
    requires TriggerList(t, ts, position, current, lastMove).1.Ok?
    ensures TriggerList(t, ts, position, current, lastMove).0.direction == Turned(t.direction, Reverses(ts))
    decreases |ts|, 1
  {
    if ts != [] {
      TriggerListDirectionStep(t, ts, position, current, lastMove);
    }
  }

  /** The first tile turns the direction or not, and the rest of the list does the rest. */
  lemma {:induction false} TriggerListDirectionStep(t: Tally, ts: seq<SpecialTile>, position: Position, current: Player, lastMove: Option<Move>)
    requires Grid(t.board) && (lastMove.Some? ==> lastMove.value.Valid())
    requires ts != [] && TriggerList(t, ts, position, current, lastMove).1.Ok?
    ensures TriggerList(t, ts, position, current, lastMove).0.direction == Turned(t.direction, Reverses(ts))
    decreases |ts|, 0
  {
    var step := Trigger(t, ts[0], position, current, lastMove);
    TriggerListHead(t, ts, position, current, lastMove);
    TriggerTurns(t, ts[0], position, current, lastMove);
    TriggerListDirection(step.0, ts[1..], position, current, lastMove);
    TurnedAfter(t.direction, ts[0].kind == Reverse, Reverses(ts[1..]));
  }

  /** A list that runs through passes its first tile, and the rest of the list goes on from there. */
  lemma TriggerListHead(t: Tally, ts: seq<SpecialTile>, position: Position, current: Player, lastMove: Option<Move>)
    requires Grid(t.board) && (lastMove.Some? ==> lastMove.value.Valid())
    requires ts != [] && TriggerList(t, ts, position, current, lastMove).1.Ok?
    ensures var step := Trigger(t, ts[0], position, current, lastMove);
      && step.1.Ok?
      && TriggerList(t, ts, position, current, lastMove) == TriggerList(step.0, ts[1..], position, current, lastMove)
  {
  }

  /** Flipping once or not at all, then `n` times, is flipping one or no more times than `n`. */
  lemma TurnedAfter(d: TurnDirection, flip: bool, n: nat)
    ensures Turned(if flip then Opposite(d) else d, n) == Turned(d, (if flip then 1 else 0) + n)
  {
    if flip {
      TurnedShift(d, n);
    }
  }

  /** Flipping first and then `n` times is flipping `n + 1` times. */
  lemma {:induction false} TurnedShift(d: TurnDirection, n: nat)
    ensures Turned(Opposite(d), n) == Turned(d, n + 1)
    decreases n
  {
    if n > 0 {
      TurnedShift(d, n - 1);
    }
  }

  /** Flipping `m` times and then `n` times is flipping `m + n` times. */
  lemma {:induction false} TurnedTwice(d: TurnDirection, m: nat, n: nat)
    ensures Turned(Turned(d, m), n) == Turned(d, m + n)
    decreases n
  {
    if n > 0 {
      TurnedTwice(d, m, n - 1);
    }
  }

  /** When every logged tile has acted, the turn direction has flipped once per reverse tile in the log. */
  lemma {:induction false} TriggerLogDirection(t: Tally, log: map<Position, seq<SpecialTile>>, order: seq<Position>, current: Player, lastMove: Option<Move>)
    requires Grid(t.board) && (lastMove.Some? ==> lastMove.value.Valid())
    requires TriggerLog(t, log, order, current, lastMove).1.Ok?
    ensures TriggerLog(t, log, order, current, lastMove).0.direction == Turned(t.direction, ReversesIn(log, order))
    decreases |order|
  {
    if order != [] {
      var ts := LogAt(log, order[0]);
      var step := TriggerList(t, ts, order[0], current, lastMove);
      TriggerListDirection(t, ts, order[0], current, lastMove);
      TriggerLogDirection(step.0, log, order[1..], current, lastMove);
      TurnedTwice(t.direction, Reverses(ts), ReversesIn(log, order[1..]));
    }
  }

  /** Only a boom changes the board. */
  lemma {:induction false} TriggerListKeepsBoard(t: Tally, ts: seq<SpecialTile>, position: Position, current: Player, lastMove: Option<Move>)
    requires Grid(t.board) && (lastMove.Some? ==> lastMove.value.Valid())
    requires forall i :: 0 <= i < |ts| ==> ts[i].kind != Boom
    ensures TriggerList(t, ts, position, current, lastMove).0.board == t.board
    decreases |ts|
  {
    if ts != [] {
      var step := Trigger(t, ts[0], position, current, lastMove);
      if step.1.Ok? {
        assert forall i :: 0 <= i < |ts[1..]| ==> ts[1..][i] == ts[i + 1];
        TriggerListKeepsBoard(step.0, ts[1..], position, current, lastMove);
      }
    }
  }

  /** A log without a boom tile leaves the board as it is, whether or not an action throws. */
  lemma {:induction false} TriggerLogKeepsBoard(t: Tally, log: map<Position, seq<SpecialTile>>, order: seq<Position>, current: Player, lastMove: Option<Move>)
    requires Grid(t.board) && (lastMove.Some? ==> lastMove.value.Valid())
    requires forall q, i :: q in log && 0 <= i < |log[q]| ==> log[q][i].kind != Boom
    ensures TriggerLog(t, log, order, current, lastMove).0.board == t.board
    decreases |order|
  {
    if order != [] {
      var ts := LogAt(log, order[0]);
      TriggerListKeepsBoard(t, ts, order[0], current, lastMove);
      var step := TriggerList(t, ts, order[0], current, lastMove);
      if step.1.Ok? {
        TriggerLogKeepsBoard(step.0, log, order[1..], current, lastMove);
      }
    }
  }

  /** Stealing moves points between two players: together they have as many as before. */
  lemma StealConserves(t: Tally, tile: SpecialTile, position: Position, current: Player, lastMove: Option<Move>)
    requires Grid(t.board) && (lastMove.Some? ==> lastMove.value.Valid())
    requires tile.kind == StealScore
    ensures var gains := Trigger(t, tile, position, current, lastMove).0.gains;
      current != tile.owner ==>
        GainOf(gains, current) + GainOf(gains, tile.owner) == GainOf(t.gains, current) + GainOf(t.gains, tile.owner)
  {
    if lastMove.Some? && WordsOf(t.board, lastMove.value).Ok? {
      StealGains(t.gains, current, tile.owner, ScoreBeforeNull(WordsOf(t.board, lastMove.value).value));
    }
  }

  /** What a steal of `x` points does to the scores of the two players involved. */
  lemma StealGains(gains: map<Player, int>, current: Player, owner: Player, x: int)
    ensures var after := if current == owner then gains else Credit(Credit(gains, current, -x), owner, x);
      && GainOf(after, current) == GainOf(gains, current) - (if current == owner then 0 else x)
      && GainOf(after, owner) == GainOf(gains, owner) + (if current == owner then 0 else x)
  {
  }

  /** A tile changes only the current player's and its owner's scores. */
  lemma TriggerGainsAt(t: Tally, tile: SpecialTile, position: Position, current: Player, lastMove: Option<Move>, p: Player)
    requires Grid(t.board) && (lastMove.Some? ==> lastMove.value.Valid())
    requires p != current && p != tile.owner
    ensures GainOf(Trigger(t, tile, position, current, lastMove).0.gains, p) == GainOf(t.gains, p)
  {
    match tile.kind
    case NegativePoints => assert Negated(t, current, lastMove).0.gains == Trigger(t, tile, position, current, lastMove).0.gains;
    case StealScore => assert Stolen(t, tile.owner, current, lastMove).0.gains == Trigger(t, tile, position, current, lastMove).0.gains;
    case Boom => assert Blasted(t, position, current, lastMove).0.gains == Trigger(t, tile, position, current, lastMove).0.gains;
    case _ =>
  }

  /**
   * What `NegativePointsAction` promises, told in scores `c0` before and
   * `c1` after, is the negate-points step: the outcome, and the change of the
   * current player's score and of the tile owner's (`o0`, `o1`).
   */
  lemma NegatedScores(t: Tally, current: Player, owner: Player, lastMove: Option<Move>,
                      r: Result<()>, c0: int, c1: int, o0: int, o1: int)
    requires Grid(t.board) && (lastMove.Some? ==> lastMove.value.Valid())
    requires current == owner ==> c0 == o0 && c1 == o1
    requires current != owner ==> o1 == o0
    requires lastMove.None? ==> r == Err(NullPointer) && c1 == c0
    requires lastMove.Some? && WordsOf(t.board, lastMove.value).Err? ==>
      r == Err(WordsOf(t.board, lastMove.value).fault) && c1 == c0
    requires lastMove.Some? && WordsOf(t.board, lastMove.value).Ok? ==>
      var ws := WordsOf(t.board, lastMove.value).value;
      (r.Ok? <==> AllPresent(ws)) && (r.Err? ==> r.fault == NullPointer) && c1 == c0 - 2 * ScoreBeforeNull(ws)
    ensures var step := Negated(t, current, lastMove);
      && r == step.1
      && c1 == c0 + GainOf(step.0.gains, current) - GainOf(t.gains, current)
      && o1 == o0 + GainOf(step.0.gains, owner) - GainOf(t.gains, owner)
  {
    if r.Ok? {
      OkUnit(r);
    }
  }

  /**
   * What `StealScoreAction` promises, told in the scores of the current
   * player (`c0`, `c1`) and of the tile's owner (`o0`, `o1`), is the
   * steal-score step.
   */
  lemma StolenScores(t: Tally, current: Player, owner: Player, lastMove: Option<Move>,
                     r: Result<()>, c0: int, c1: int, o0: int, o1: int)
    requires Grid(t.board) && (lastMove.Some? ==> lastMove.value.Valid())
    requires current == owner ==> c0 == o0 && c1 == o1
    requires lastMove.None? ==> r == Err(NullPointer) && c1 == c0 && o1 == o0
    requires lastMove.Some? && WordsOf(t.board, lastMove.value).Err? ==>
      r == Err(WordsOf(t.board, lastMove.value).fault) && c1 == c0 && o1 == o0
    requires lastMove.Some? && WordsOf(t.board, lastMove.value).Ok? ==>
      var ws := WordsOf(t.board, lastMove.value).value;
      && (r.Ok? <==> AllPresent(ws)) && (r.Err? ==> r.fault == NullPointer)
      && (current != owner ==> c1 == c0 - ScoreBeforeNull(ws) && o1 == o0 + ScoreBeforeNull(ws))
      && (current == owner ==> c1 == c0)
    ensures var step := Stolen(t, owner, current, lastMove);
      && r == step.1
      && c1 == c0 + GainOf(step.0.gains, current) - GainOf(t.gains, current)
      && o1 == o0 + GainOf(step.0.gains, owner) - GainOf(t.gains, owner)
  {
    if r.Ok? {
      OkUnit(r);
    }
    if lastMove.Some? && WordsOf(t.board, lastMove.value).Ok? {
      StealGains(t.gains, current, owner, ScoreBeforeNull(WordsOf(t.board, lastMove.value).value));
    }
  }

  /**
   * What `BoomAction` promises, told in the board `after` and in scores, is
   * the boom step: the blasted board, the outcome, and the change of the
   * current player's score and of the tile owner's.
   */
  lemma BlastedScores(t: Tally, position: Position, current: Player, owner: Player, lastMove: Option<Move>,
                      r: Result<()>, after: BoardState, c0: int, c1: int, o0: int, o1: int)
    requires Grid(t.board) && (lastMove.Some? ==> lastMove.value.Valid())
    requires current == owner ==> c0 == o0 && c1 == o1
    requires current != owner ==> o1 == o0
    requires lastMove.None? ==> r == Err(NullPointer) && after == t.board && c1 == c0
    requires lastMove.Some? && TotalScoreOf(t.board, lastMove.value).Err? ==>
      r == Err(TotalScoreOf(t.board, lastMove.value).fault) && after == t.board && c1 == c0
    requires lastMove.Some? && TotalScoreOf(t.board, lastMove.value).Ok? ==>
      after == ClearSet(t.board, BlastSet(position))
    requires lastMove.Some? && TotalScoreOf(t.board, lastMove.value).Ok? ==>
      var newScore := NewScoreOf(after, lastMove.value, BlastSet(position));
      && (newScore.Err? ==> r == Err(newScore.fault) && c1 == c0)
      && (newScore.Ok? ==> r == Ok(()) && c1 == c0 - TotalScoreOf(t.board, lastMove.value).value + newScore.value)
    ensures var step := Blasted(t, position, current, lastMove);
      && after == step.0.board && r == step.1
      && c1 == c0 + GainOf(step.0.gains, current) - GainOf(t.gains, current)
      && o1 == o0 + GainOf(step.0.gains, owner) - GainOf(t.gains, owner)
  {
  }
}
