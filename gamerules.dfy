/**
 * The game's bookkeeping as values (game/SWSGame.java): the list operations
 * the game applies to racks and lists, the owner-filtered view of a square,
 * what placing a move and rolling it back do to a board snapshot, and the
 * index arithmetic of the turn cycle. The methods of class Game in module
 * Games state their effect on live objects through these functions.
 */
module GameRules {
  import opened Wrappers
  import opened JavaInts
  import opened Geometry
  import opened Players
  import opened Letters
  import opened Squares
  import opened Moves
  import opened BoardStates
  import opened Boards

  // ---------------------------------------------------------------------------
  // List operations
  // ---------------------------------------------------------------------------

  /** `List.remove(Object)`: drops the first occurrence, if there is one. */
  function RemoveFirst<T(==)>(s: seq<T>, x: T): (r: seq<T>)
    ensures x !in s ==> r == s
    ensures x in s ==> |r| == |s| - 1
    ensures multiset(r) == multiset(s) - multiset{x}
  {
    if s == [] then []
    else
      assert s == [s[0]] + s[1..];
      if s[0] == x then s[1..] else [s[0]] + RemoveFirst(s[1..], x)
  }

  /** `List.removeAll`: drops every occurrence of every element of `xs`, keeping the order of the rest. */
  function RemoveAll<T(==)>(s: seq<T>, xs: seq<T>): (r: seq<T>)
    ensures forall i :: 0 <= i < |r| ==> r[i] in s && r[i] !in xs
    ensures forall i :: 0 <= i < |s| && s[i] !in xs ==> multiset(r)[s[i]] == multiset(s)[s[i]]
    ensures forall i :: 0 <= i < |xs| ==> multiset(r)[xs[i]] == 0
  {
    if s == [] then []
    else
      assert s == [s[0]] + s[1..];
      if s[0] in xs then RemoveAll(s[1..], xs) else [s[0]] + RemoveAll(s[1..], xs)
  }

  /** No element occurs twice. */
  predicate Unique<T(==)>(s: seq<T>)
  {
    forall i, j :: 0 <= i < j < |s| ==> s[i] != s[j]
  }

  /**
   * On a rack without repeats, removing a repeat-free list of held tiles
   * shortens it by exactly their number, so a swap that returns as many
   * tiles leaves the rack size unchanged.
   */
  lemma RemoveAllHeld<T>(s: seq<T>, xs: seq<T>)
    requires Unique(s) && Unique(xs) && forall x :: x in xs ==> x in s
    ensures |RemoveAll(s, xs)| == |s| - |xs|
    ensures multiset(RemoveAll(s, xs)) + multiset(xs) == multiset(s)
  {
    var r := RemoveAll(s, xs);
    forall y ensures (multiset(r) + multiset(xs))[y] == multiset(s)[y] {
      UniqueCount(s, y);
      UniqueCount(xs, y);
    }
    assert multiset(r) + multiset(xs) == multiset(s);
    assert |multiset(r) + multiset(xs)| == |multiset(s)|;
  }

  /** In a sequence without repeats, an element occurs once or not at all. */
  lemma {:induction false} UniqueCount<T>(s: seq<T>, y: T)
    requires Unique(s)
    ensures multiset(s)[y] == if y in s then 1 else 0
  {
    if s != [] {
      assert s == [s[0]] + s[1..];
      assert Unique(s[1..]) by {
        forall i, j | 0 <= i < j < |s[1..]| ensures s[1..][i] != s[1..][j] {
          assert s[1..][i] == s[i + 1] && s[1..][j] == s[j + 1];
        }
      }
      UniqueCount(s[1..], y);
      if s[0] == y {
        forall k | 0 <= k < |s[1..]| ensures s[1..][k] != y {
          assert s[1..][k] == s[k + 1];
        }
      }
    }
  }

  /** `removeIf(st -> !st.owner().equals(player))`: the special tiles `player` owns, in order. */
  function OwnedBy(ts: seq<SpecialTile>, player: Player): (r: seq<SpecialTile>)
    ensures forall i :: 0 <= i < |r| ==> r[i] in ts && r[i].owner == player
    ensures forall i :: 0 <= i < |ts| && ts[i].owner == player ==> ts[i] in r
    ensures |r| <= |ts|
  {
    if ts == [] then []
    else
      assert ts == [ts[0]] + ts[1..];
      if ts[0].owner == player then [ts[0]] + OwnedBy(ts[1..], player) else OwnedBy(ts[1..], player)
  }

  /**
   * `viewOfSquare(player, position)`: an invalid position throws; otherwise
   * the square as it is, except that only `player`'s special tiles show.
   */
  function PlayerView(b: BoardState, player: Player, p: Position): (r: Result<ImmutableSquare>)
    ensures r.Err? <==> p !in b.squares
    ensures r.Err? ==> r.fault == IllegalArgument("Not a valid position.")
    ensures r.Ok? ==>
      && r.value.wordMultiplier == b.squares[p].wordMultiplier
      && r.value.letterMultiplier == b.squares[p].letterMultiplier
      && r.value.letterTile == b.squares[p].letterTile
      && r.value.specialTiles == OwnedBy(b.squares[p].specialTiles, player)
  {
    if p !in b.squares then Err(IllegalArgument("Not a valid position."))
    else
      var original := b.squares[p];
      Ok(original.(specialTiles := OwnedBy(original.specialTiles, player)))
  }

  /** A player's view shows a special tile exactly when one of that player's tiles lies there. */
  lemma PlayerViewHasSpecialTiles(b: BoardState, player: Player, p: Position)
    requires p in b.squares
    ensures PlayerView(b, player, p).value.specialTiles != [] <==> OwnerHasTileAt(b, p, player)
  {
    var shown := PlayerView(b, player, p).value.specialTiles;
    var ts := b.squares[p].specialTiles;
    if shown != [] {
      assert shown[0] in shown;
      var i :| 0 <= i < |ts| && ts[i] == shown[0];
    }
    if OwnerHasTileAt(b, p, player) {
      var i :| 0 <= i < |ts| && ts[i].owner == player;
      assert ts[i] in shown;
    }
  }

  // ---------------------------------------------------------------------------
  // Placing a move
  // ---------------------------------------------------------------------------

  /** What `placeMove`'s loop updates: the board, the turn's trigger log and the player's rack. */
  datatype Progress = Progress(board: BoardState, triggered: map<Position, seq<SpecialTile>>, rack: seq<LetterTile>)

  /** The list logged at `p`, empty when there is none. */
  function LogAt(log: map<Position, seq<SpecialTile>>, p: Position): seq<SpecialTile>
  {
    if p in log then log[p] else []
  }

  /** `addTriggeredSpecialTile` once per tile: an empty list adds no entry. */
  function Logged(log: map<Position, seq<SpecialTile>>, p: Position, ts: seq<SpecialTile>): (r: map<Position, seq<SpecialTile>>)
    ensures LogAt(r, p) == LogAt(log, p) + ts
    ensures forall q :: q != p ==> LogAt(r, q) == LogAt(log, q)
    ensures r.Keys == if ts == [] then log.Keys else log.Keys + {p}
  {
    if ts == [] then log else log[p := LogAt(log, p) + ts]
  }

  /** Logging one more tile appends it to the list at `p`, creating the list when there is none. */
  lemma LoggedStep(log: map<Position, seq<SpecialTile>>, p: Position, ts: seq<SpecialTile>, t: SpecialTile)
    ensures var before := Logged(log, p, ts);
      Logged(log, p, ts + [t]) == before[p := LogAt(before, p) + [t]]
  {
    var before := Logged(log, p, ts);
    var after := Logged(log, p, ts + [t]);
    assert after == log[p := LogAt(log, p) + (ts + [t])];
    assert LogAt(before, p) + [t] == LogAt(log, p) + (ts + [t]);
    if ts != [] {
      assert before == log[p := LogAt(log, p) + ts];
    }
  }

  /** Every entry of the log holds a tile: an entry is only made when a tile is added. */
  predicate NoEmptyLogs(log: map<Position, seq<SpecialTile>>)
  {
    forall q :: q in log ==> log[q] != []
  }

  /** Same size and same positions. */
  predicate SameShape(a: BoardState, b: BoardState)
  {
    a.width == b.width && a.height == b.height && a.squares.Keys == b.squares.Keys
  }

  /**
   * One round of `placeMove`'s loop: pick up the square's special tiles
   * into the log (an off-board position throws), take the tile off the rack,
   * and put it on the board, which throws when the square already holds a
   * letter.
   */
  function PlaceStep(s: Progress, pl: Placement): (r: (Progress, Result<()>))
    ensures SameShape(r.0.board, s.board)
  {
    var p := pl.position;
    if p !in s.board.squares then (s, Err(IllegalArgument("Invalid position argument.")))
    else
      var picked := Progress(
        ClearSpecials(s.board, p),
        Logged(s.triggered, p, s.board.squares[p].specialTiles),
        RemoveFirst(s.rack, pl.tile));
      if HasLetterAt(picked.board, p) then (picked, Err(IllegalArgument("Invalid tile placement")))
      else (picked.(board := PutLetter(picked.board, p, pl.tile)), Ok(()))
  }

  /** `placeMove`'s loop over the placements in order, stopping at the first exception. */
  function PlaceAll(s: Progress, ps: seq<Placement>): (r: (Progress, Result<()>))
    ensures SameShape(r.0.board, s.board)
    decreases |ps|
  {
    if ps == [] then (s, Ok(()))
    else
      var step := PlaceStep(s, ps[0]);
      if step.1.Err? then step else PlaceAll(step.0, ps[1..])
  }

  /** The loop from round `i` on: one step, then the rest. */
  lemma PlaceAllFrom(s: Progress, ps: seq<Placement>, i: nat)
    requires i < |ps|
    ensures var step := PlaceStep(s, ps[i]);
      PlaceAll(s, ps[i..]) == if step.1.Err? then step else PlaceAll(step.0, ps[i + 1..])
  {
    assert ps[i..][0] == ps[i] && ps[i..][1..] == ps[i + 1..];
  }

  /** Positions of placements on the board, pairwise distinct, none holding a letter. */
  predicate Placeable(b: BoardState, ps: seq<Placement>)
  {
    && Distinct(PositionsOf(ps))
    && (forall i :: 0 <= i < |ps| ==> ps[i].position in b.squares && !HasLetterAt(b, ps[i].position))
  }

  /** A placement's square once the move is placed: its tile, no special tiles. */
  function Covered(sq: ImmutableSquare, t: LetterTile): ImmutableSquare
  {
    sq.(letterTile := Some(t), specialTiles := [])
  }

  /** A successful first step hands the rest of the move to the loop. */
  lemma PlaceAllUnfold(s: Progress, ps: seq<Placement>)
    requires ps != [] && PlaceStep(s, ps[0]).1.Ok?
    ensures PlaceAll(s, ps) == PlaceAll(PlaceStep(s, ps[0]).0, ps[1..])
  {
  }

  /** What one placing step on an empty square leaves at square `q`. */
  lemma PlaceStepSquare(s: Progress, pl: Placement, q: Position)
    requires pl.position in s.board.squares && !HasLetterAt(s.board, pl.position) && q in s.board.squares
    ensures PlaceStep(s, pl).0.board.squares[q] ==
      if q == pl.position then Covered(s.board.squares[q], pl.tile) else s.board.squares[q]
  {
    PlaceStepCovers(s, pl);
  }

  /** On an empty square the step succeeds: the square is covered, its special tiles logged, the tile taken off the rack. */
  lemma PlaceStepCovers(s: Progress, pl: Placement)
    requires pl.position in s.board.squares && !HasLetterAt(s.board, pl.position)
    ensures PlaceStep(s, pl).1 == Ok(())
    ensures PlaceStep(s, pl).0 == Progress(
      s.board.(squares := s.board.squares[pl.position := Covered(s.board.squares[pl.position], pl.tile)]),
      Logged(s.triggered, pl.position, s.board.squares[pl.position].specialTiles),
      RemoveFirst(s.rack, pl.tile))
  {
  }

  /** The first step succeeds and leaves the rest of the move placeable. */
  lemma PlaceableTail(s: Progress, ps: seq<Placement>)
    requires ps != [] && Placeable(s.board, ps)
    ensures PlaceStep(s, ps[0]).1 == Ok(())
    ensures Placeable(PlaceStep(s, ps[0]).0.board, ps[1..])
  {
    PlaceStepCovers(s, ps[0]);
    DistinctTail(ps);
    var next := PlaceStep(s, ps[0]).0.board;
    var rest := ps[1..];
    forall i | 0 <= i < |rest| ensures rest[i].position in next.squares && !HasLetterAt(next, rest[i].position) {
      assert rest[i] == ps[i + 1];
    }
  }

  /** The rest of a move with distinct positions has distinct positions, none of them the first. */
  lemma DistinctTail(ps: seq<Placement>)
    requires ps != [] && Distinct(PositionsOf(ps))
    ensures Distinct(PositionsOf(ps[1..]))
    ensures forall i :: 1 <= i < |ps| ==> ps[i].position != ps[0].position
  {
    var qs := PositionsOf(ps);
    var rs := PositionsOf(ps[1..]);
    forall i, j | 0 <= i < j < |rs| ensures rs[i] != rs[j] {
      assert rs[i] == qs[i + 1] && rs[j] == qs[j + 1];
    }
    forall i | 1 <= i < |ps| ensures ps[i].position != ps[0].position {
      assert qs[i] != qs[0];
    }
  }

  /** The move's positions: the first, then the rest. */
  lemma PositionsOfSplit(ps: seq<Placement>)
    requires ps != []
    ensures PositionsOf(ps) == [ps[0].position] + PositionsOf(ps[1..])
    ensures TilesOf(ps) == [ps[0].tile] + TilesOf(ps[1..])
  {
  }

  /** The first position of a move occurs nowhere else in it. */
  lemma HeadNotInTail(ps: seq<Placement>)
    requires ps != [] && Distinct(PositionsOf(ps))
    ensures ps[0].position !in PositionsOf(ps[1..])
  {
  }

  /** Placing a move on empty squares succeeds. */
  lemma {:induction false} PlaceAllSucceeds(s: Progress, ps: seq<Placement>)
    requires Placeable(s.board, ps)
    ensures PlaceAll(s, ps).1 == Ok(())
    decreases |ps|
  {
    if ps != [] {
      PlaceableTail(s, ps);
      PlaceAllSucceeds(PlaceStep(s, ps[0]).0, ps[1..]);
    }
  }

  /** A square off the move keeps its contents. */
  lemma {:induction false} PlaceAllKeeps(s: Progress, ps: seq<Placement>, q: Position)
    requires Placeable(s.board, ps) && q in s.board.squares && q !in PositionsOf(ps)
    ensures PlaceAll(s, ps).0.board.squares[q] == s.board.squares[q]
    decreases |ps|
  {
    if ps != [] {
      PlaceableTail(s, ps);
      PlaceStepCovers(s, ps[0]);
      PositionsOfSplit(ps);
      PlaceAllKeeps(PlaceStep(s, ps[0]).0, ps[1..], q);
    }
  }

  /** Each placement's square ends up holding its tile and no special tiles. */
  lemma {:induction false} PlaceAllCovers(s: Progress, ps: seq<Placement>, i: nat)
    requires Placeable(s.board, ps) && i < |ps|
    ensures PlaceAll(s, ps).0.board.squares[ps[i].position] == Covered(s.board.squares[ps[i].position], ps[i].tile)
    decreases |ps|, 1
  {
    if i == 0 {
      PlaceAllCoversHead(s, ps);
    } else {
      PlaceAllCoversLater(s, ps, i);
    }
  }

  /** A later placement's square is untouched by the first step, then covered by the rest of the move. */
  lemma {:induction false} PlaceAllCoversLater(s: Progress, ps: seq<Placement>, i: nat)
    requires Placeable(s.board, ps) && 0 < i < |ps|
    ensures PlaceAll(s, ps).0.board.squares[ps[i].position] == Covered(s.board.squares[ps[i].position], ps[i].tile)
    decreases |ps|, 0
  {
    var next := PlaceStep(s, ps[0]).0;
    PlaceableTail(s, ps);
    PlaceAllUnfold(s, ps);
    PlaceStepSquare(s, ps[0], ps[i].position);
    assert PositionsOf(ps)[i] != PositionsOf(ps)[0];
    assert ps[1..][i - 1] == ps[i];
    PlaceAllCovers(next, ps[1..], i - 1);
  }

  /** The first placement's square ends up covered by its tile. */
  lemma PlaceAllCoversHead(s: Progress, ps: seq<Placement>)
    requires Placeable(s.board, ps) && ps != []
    ensures PlaceAll(s, ps).0.board.squares[ps[0].position] == Covered(s.board.squares[ps[0].position], ps[0].tile)
  {
    PlaceableTail(s, ps);
    PlaceAllUnfold(s, ps);
    PlaceStepSquare(s, ps[0], ps[0].position);
    HeadNotInTail(ps);
    PlaceAllKeeps(PlaceStep(s, ps[0]).0, ps[1..], ps[0].position);
  }

  /**
   * Placing a move on empty squares logs, at each of its squares, the
   * special tiles that lay there, and logs nothing anywhere else.
   */
  lemma {:induction false} PlaceAllLogAt(s: Progress, ps: seq<Placement>, q: Position)
    requires Placeable(s.board, ps) && q in s.board.squares
    ensures LogAt(PlaceAll(s, ps).0.triggered, q) ==
      LogAt(s.triggered, q) + (if q in PositionsOf(ps) then s.board.squares[q].specialTiles else [])
    decreases |ps|
  {
    if ps == [] {
      assert LogAt(s.triggered, q) + [] == LogAt(s.triggered, q);
    } else {
      PlaceableTail(s, ps);
      PlaceStepCovers(s, ps[0]);
      PositionsOfSplit(ps);
      var next := PlaceStep(s, ps[0]).0;
      var rest := ps[1..];
      PlaceAllLogAt(next, rest, q);
      assert PlaceAll(s, ps) == PlaceAll(next, rest);
      if q == ps[0].position {
        assert q !in PositionsOf(rest);
        assert LogAt(next.triggered, q) + [] == LogAt(next.triggered, q);
      }
    }
  }

  /** Off the board the log is untouched. */
  lemma {:induction false} PlaceAllLogsOnBoard(s: Progress, ps: seq<Placement>, q: Position)
    requires q !in s.board.squares
    ensures LogAt(PlaceAll(s, ps).0.triggered, q) == LogAt(s.triggered, q)
    decreases |ps|
  {
    if ps != [] {
      var step := PlaceStep(s, ps[0]);
      if step.1.Ok? {
        PlaceAllLogsOnBoard(step.0, ps[1..], q);
      }
    }
  }

  /** The loop never logs an empty list, whether or not it throws. */
  lemma {:induction false} PlaceAllFillsLogs(s: Progress, ps: seq<Placement>)
    requires NoEmptyLogs(s.triggered)
    ensures NoEmptyLogs(PlaceAll(s, ps).0.triggered)
    decreases |ps|
  {
    if ps != [] {
      var p := ps[0].position;
      var step := PlaceStep(s, ps[0]);
      assert NoEmptyLogs(step.0.triggered) by {
        if p in s.board.squares {
          LoggedKeepsNoEmptyLogs(s.triggered, p, s.board.squares[p].specialTiles);
        }
      }
      if step.1.Ok? {
        PlaceAllUnfold(s, ps);
        PlaceAllFillsLogs(step.0, ps[1..]);
      }
    }
  }

  /** Logging never leaves an empty list behind. */
  lemma LoggedKeepsNoEmptyLogs(log: map<Position, seq<SpecialTile>>, p: Position, ts: seq<SpecialTile>)
    requires NoEmptyLogs(log)
    ensures NoEmptyLogs(Logged(log, p, ts))
  {
    var r := Logged(log, p, ts);
    forall q | q in r ensures r[q] != [] {
      assert r[q] == LogAt(r, q);
      assert q in log ==> log[q] == LogAt(log, q);
    }
  }

  /** Multiset difference by two parts is difference by their sum. */
  lemma MinusTwice<T>(a: multiset<T>, t: multiset<T>, c: multiset<T>)
    ensures (a - t) - c == a - (t + c)
  {
    assert forall y :: ((a - t) - c)[y] == (a - (t + c))[y];
  }

  /** Placing a move takes exactly its tiles off the rack, as far as the rack holds them. */
  lemma {:induction false} PlaceAllRack(s: Progress, ps: seq<Placement>)
    requires Placeable(s.board, ps)
    ensures multiset(PlaceAll(s, ps).0.rack) == multiset(s.rack) - multiset(TilesOf(ps))
    decreases |ps|
  {
    if ps == [] {
      assert TilesOf(ps) == [];
    } else {
      PlaceableTail(s, ps);
      PlaceStepCovers(s, ps[0]);
      PositionsOfSplit(ps);
      var next := PlaceStep(s, ps[0]).0;
      PlaceAllRack(next, ps[1..]);
      assert PlaceAll(s, ps) == PlaceAll(next, ps[1..]);
      MinusTwice(multiset(s.rack), multiset{ps[0].tile}, multiset(TilesOf(ps[1..])));
    }
  }

  /** The rest of a move has distinct positions, none of them the first one. */
  lemma TailDistinct(ps: seq<Placement>)
    requires ps != [] && Distinct(PositionsOf(ps))
    ensures Distinct(PositionsOf(ps[1..]))
    ensures forall i :: 0 <= i < |ps| - 1 ==> ps[1..][i] == ps[i + 1] && ps[i + 1].position != ps[0].position
  {
    var rest := ps[1..];
    forall i | 0 <= i < |rest| ensures rest[i] == ps[i + 1] && ps[i + 1].position != ps[0].position {
      assert PositionsOf(ps)[0] == ps[0].position && PositionsOf(ps)[i + 1] == ps[i + 1].position;
    }
    forall i, j | 0 <= i < j < |rest| ensures PositionsOf(rest)[i] != PositionsOf(rest)[j] {
      assert PositionsOf(ps)[i + 1] == ps[i + 1].position && PositionsOf(ps)[j + 1] == ps[j + 1].position;
    }
  }

  /** A move whose placing loop runs to the end without throwing was placeable on the board it started from. */
  lemma {:induction false} PlaceAllOnlyIfPlaceable(s: Progress, ps: seq<Placement>)
    requires Distinct(PositionsOf(ps)) && PlaceAll(s, ps).1 == Ok(())
    ensures Placeable(s.board, ps)
    decreases |ps|
  {
    if ps != [] {
      var p := ps[0].position;
      var step := PlaceStep(s, ps[0]);
      assert step.1 == Ok(());
      assert p in s.board.squares && !HasLetterAt(s.board, p);
      TailDistinct(ps);
      PlaceAllOnlyIfPlaceable(step.0, ps[1..]);
      forall i | 0 <= i < |ps| ensures ps[i].position in s.board.squares && !HasLetterAt(s.board, ps[i].position) {
        if i > 0 {
          assert ps[1..][i - 1] == ps[i];
          assert step.0.board.squares[ps[i].position] == s.board.squares[ps[i].position];
        }
      }
    }
  }

  /**
   * The placing loop of a move with distinct positions runs to the end
   * exactly when every position is on the board and free of letters.
   */
  lemma PlaceAllOkIffPlaceable(s: Progress, ps: seq<Placement>)
    requires Distinct(PositionsOf(ps))
    ensures PlaceAll(s, ps).1 == Ok(()) <==> Placeable(s.board, ps)
  {
    if PlaceAll(s, ps).1 == Ok(()) {
      PlaceAllOnlyIfPlaceable(s, ps);
    }
    if Placeable(s.board, ps) {
      PlaceAllSucceeds(s, ps);
    }
  }

  // ---------------------------------------------------------------------------
  // Rolling a move back after a successful challenge
  // ---------------------------------------------------------------------------

  /** `letterTiles().add(tile)` for a tile that was found. */
  function WithTile(rack: seq<LetterTile>, tile: Option<LetterTile>): seq<LetterTile>
  {
    if tile.Some? then rack + [tile.value] else rack
  }

  /**
   * The pickup loop of `challengeLastMove`: each placement's letter tile is
   * picked up, in order, and appended to the rack; an off-board position
   * throws.
   */
  function PickupAll(b: BoardState, qs: seq<Position>, rack: seq<LetterTile>): (r: (BoardState, seq<LetterTile>, Result<()>))
    ensures SameShape(r.0, b)
    decreases |qs|
  {
    if qs == [] then (b, rack, Ok(()))
    else if qs[0] !in b.squares then (b, rack, Err(IllegalArgument("Invalid tile placement")))
    else PickupAll(RemoveLetter(b, qs[0]), qs[1..], WithTile(rack, b.squares[qs[0]].letterTile))
  }

  /** The loop from round `i` on: one pickup, then the rest. */
  lemma PickupAllFrom(b: BoardState, qs: seq<Position>, i: nat, rack: seq<LetterTile>)
    requires i < |qs|
    ensures PickupAll(b, qs[i..], rack) ==
      if qs[i] !in b.squares then (b, rack, Err(IllegalArgument("Invalid tile placement")))
      else PickupAll(RemoveLetter(b, qs[i]), qs[i + 1..], WithTile(rack, b.squares[qs[i]].letterTile))
  {
    assert qs[i..][0] == qs[i] && qs[i..][1..] == qs[i + 1..];
  }

  /**
   * Picking up the letters at distinct lettered positions succeeds, empties
   * exactly those squares of their letters and appends the tiles found to
   * the rack, in order.
   */
  lemma {:induction false} PickupAllSpec(b: BoardState, qs: seq<Position>, rack: seq<LetterTile>)
    requires Distinct(qs) && forall i :: 0 <= i < |qs| ==> qs[i] in b.squares && HasLetterAt(b, qs[i])
    ensures PickupAll(b, qs, rack).2 == Ok(())
    ensures |PickupAll(b, qs, rack).1| == |rack| + |qs|
    ensures PickupAll(b, qs, rack).1[..|rack|] == rack
    ensures forall i :: 0 <= i < |qs| ==> Some(PickupAll(b, qs, rack).1[|rack| + i]) == b.squares[qs[i]].letterTile
    ensures forall i :: 0 <= i < |qs| ==>
      PickupAll(b, qs, rack).0.squares[qs[i]] == b.squares[qs[i]].(letterTile := None)
    ensures forall q :: q in b.squares && q !in qs ==> PickupAll(b, qs, rack).0.squares[q] == b.squares[q]
    decreases |qs|
  {
    if qs != [] {
      var next := RemoveLetter(b, qs[0]);
      var rest := qs[1..];
      var rack' := WithTile(rack, b.squares[qs[0]].letterTile);
      PickupTailReady(b, qs);
      PickupAllSpec(next, rest, rack');
      var r := PickupAll(b, qs, rack);
      assert r == PickupAll(next, rest, rack');
      assert r.1[..|rack|] == r.1[..|rack'|][..|rack|];
      forall i | 0 <= i < |qs|
        ensures Some(r.1[|rack| + i]) == b.squares[qs[i]].letterTile
        ensures r.0.squares[qs[i]] == b.squares[qs[i]].(letterTile := None)
      {
        if i > 0 {
          assert qs[i] == rest[i - 1] && qs[i] != qs[0];
          assert |rack| + i == |rack'| + (i - 1);
        } else {
          assert r.1[|rack|] == r.1[..|rack'|][|rack|];
        }
      }
    }
  }

  /** Once the first letter is picked up, the other positions still hold letters. */
  lemma PickupTailReady(b: BoardState, qs: seq<Position>)
    requires qs != [] && Distinct(qs) && forall i :: 0 <= i < |qs| ==> qs[i] in b.squares && HasLetterAt(b, qs[i])
    ensures var next := RemoveLetter(b, qs[0]);
      && Distinct(qs[1..])
      && forall i :: 0 <= i < |qs| - 1 ==> qs[1..][i] == qs[i + 1] && qs[i + 1] != qs[0] && qs[i + 1] in next.squares && HasLetterAt(next, qs[i + 1])
  {
  }

  /** `board.placeSpecialTile(position, tile)` on a snapshot. */
  function PlaceSpecial(b: BoardState, p: Position, t: SpecialTile): (r: (BoardState, Result<()>))
    ensures SameShape(r.0, b)
  {
    if p !in b.squares || HasLetterAt(b, p) then (b, Err(IllegalArgument("Invalid tile placement")))
    else if OwnerHasTileAt(b, p, t.owner) then (b, Err(IllegalArgument("Cannot combine special tiles.")))
    else (PutSpecial(b, p, t), Ok(()))
  }

  /** The inner re-placing loop: the tiles logged at one square, in order, stopping at the first exception. */
  function PlaceSpecials(b: BoardState, p: Position, ts: seq<SpecialTile>): (r: (BoardState, Result<()>))
    ensures SameShape(r.0, b)
    decreases |ts|
  {
    if ts == [] then (b, Ok(()))
    else
      var step := PlaceSpecial(b, p, ts[0]);
      if step.1.Err? then step else PlaceSpecials(step.0, p, ts[1..])
  }

  /** The inner loop from round `i` on. */
  lemma PlaceSpecialsFrom(b: BoardState, p: Position, ts: seq<SpecialTile>, i: nat)
    requires i < |ts|
    ensures var step := PlaceSpecial(b, p, ts[i]);
      PlaceSpecials(b, p, ts[i..]) == if step.1.Err? then step else PlaceSpecials(step.0, p, ts[i + 1..])
  {
    assert ts[i..][0] == ts[i] && ts[i..][1..] == ts[i + 1..];
  }

  /** The outer re-placing loop over the log's squares in iteration order. */
  function ReplaceAll(b: BoardState, log: map<Position, seq<SpecialTile>>, order: seq<Position>): (r: (BoardState, Result<()>))
    ensures SameShape(r.0, b)
    decreases |order|
  {
    if order == [] then (b, Ok(()))
    else
      var step := PlaceSpecials(b, order[0], LogAt(log, order[0]));
      if step.1.Err? then step else ReplaceAll(step.0, log, order[1..])
  }

  /** The outer loop from round `i` on. */
  lemma ReplaceAllFrom(b: BoardState, log: map<Position, seq<SpecialTile>>, order: seq<Position>, i: nat)
    requires i < |order|
    ensures var step := PlaceSpecials(b, order[i], LogAt(log, order[i]));
      ReplaceAll(b, log, order[i..]) == if step.1.Err? then step else ReplaceAll(step.0, log, order[i + 1..])
  {
    assert order[i..][0] == order[i] && order[i..][1..] == order[i + 1..];
  }

  /** No two tiles of the list share an owner. */
  predicate OwnersDistinct(ts: seq<SpecialTile>)
  {
    forall i, j :: 0 <= i < j < |ts| ==> ts[i].owner != ts[j].owner
  }

  /** Re-placing tiles of distinct owners on an empty square puts exactly them back. */
  lemma {:induction false} PlaceSpecialsRestores(b: BoardState, p: Position, done: seq<SpecialTile>, ts: seq<SpecialTile>)
    requires p in b.squares && !HasLetterAt(b, p) && b.squares[p].specialTiles == done
    requires OwnersDistinct(done + ts)
    ensures PlaceSpecials(b, p, ts).0 == b.(squares := b.squares[p := b.squares[p].(specialTiles := done + ts)])
    ensures PlaceSpecials(b, p, ts).1 == Ok(())
    decreases |ts|
  {
    if ts == [] {
      assert done + ts == done;
      assert b.squares[p := b.squares[p].(specialTiles := done)] == b.squares;
    } else {
      var t := ts[0];
      assert !OwnerHasTileAt(b, p, t.owner) by {
        forall i | 0 <= i < |done| ensures done[i].owner != t.owner {
          assert (done + ts)[i] == done[i] && (done + ts)[|done|] == t;
        }
      }
      var next := PutSpecial(b, p, t);
      assert done + ts == (done + [t]) + ts[1..];
      PlaceSpecialsRestores(next, p, done + [t], ts[1..]);
      assert next.squares[p := next.squares[p].(specialTiles := done + ts)] ==
        b.squares[p := b.squares[p].(specialTiles := done + ts)];
    }
  }

  /** The board with the log's lists written back at the squares of `order`. */
  function Restored(b: BoardState, log: map<Position, seq<SpecialTile>>, order: seq<Position>): BoardState
  {
    b.(squares := map q | q in b.squares :: if q in order then b.squares[q].(specialTiles := LogAt(log, q)) else b.squares[q])
  }

  /**
   * Re-placing the logged tiles at distinct empty squares whose logs have
   * distinct owners succeeds, and each square of the order ends up holding
   * exactly its log.
   */
  lemma {:induction false} ReplaceAllRestores(b: BoardState, log: map<Position, seq<SpecialTile>>, order: seq<Position>)
    requires Distinct(order)
    requires forall i :: 0 <= i < |order| ==>
      order[i] in b.squares && !HasLetterAt(b, order[i]) && b.squares[order[i]].specialTiles == [] &&
      OwnersDistinct(LogAt(log, order[i]))
    ensures ReplaceAll(b, log, order).0 == Restored(b, log, order)
    ensures ReplaceAll(b, log, order).1 == Ok(())
    decreases |order|
  {
    if order == [] {
      assert Restored(b, log, order).squares == b.squares;
    } else {
      var p := order[0];
      var rest := order[1..];
      assert [] + LogAt(log, p) == LogAt(log, p);
      PlaceSpecialsRestores(b, p, [], LogAt(log, p));
      var next := b.(squares := b.squares[p := b.squares[p].(specialTiles := LogAt(log, p))]);
      assert PlaceSpecials(b, p, LogAt(log, p)).0 == next;
      forall i | 0 <= i < |rest| ensures rest[i] == order[i + 1] && rest[i] != p {
      }
      ReplaceAllRestores(next, log, rest);
      assert ReplaceAll(b, log, order) == ReplaceAll(next, log, rest);
      forall q | q in b.squares ensures Restored(next, log, rest).squares[q] == Restored(b, log, order).squares[q] {
        if q == p {
          assert q !in rest;
        }
      }
      assert Restored(next, log, rest).squares == Restored(b, log, order).squares;
    }
  }

  /** The board after placing a move on empty squares and picking its letters up again: only the special tiles under it are gone. */
  lemma PickupAfterPlace(b: BoardState, ps: seq<Placement>, rack: seq<LetterTile>, q: Position)
    requires Placeable(b, ps) && q in b.squares
    ensures var placed := PlaceAll(Progress(b, map[], rack), ps).0;
      var back := PickupAll(placed.board, PositionsOf(ps), placed.rack);
      back.0.squares[q] == if q in PositionsOf(ps) then b.squares[q].(specialTiles := []) else b.squares[q]
  {
    var s := Progress(b, map[], rack);
    var placed := PlaceAll(s, ps).0;
    var qs := PositionsOf(ps);
    forall i | 0 <= i < |qs| ensures qs[i] in placed.board.squares && HasLetterAt(placed.board, qs[i]) {
      PlaceAllCovers(s, ps, i);
    }
    PickupAllSpec(placed.board, qs, placed.rack);
    if q in qs {
      var k :| 0 <= k < |qs| && qs[k] == q;
      PlaceAllCovers(s, ps, k);
    } else {
      PlaceAllKeeps(s, ps, q);
    }
  }

  /**
   * A successful challenge gives the player the move's tiles back: picking
   * up the letters of a move placed on empty squares succeeds and appends
   * the move's tiles, in order, to the rack.
   */
  lemma ChallengeReturnsLetters(b: BoardState, ps: seq<Placement>, rack: seq<LetterTile>)
    requires Placeable(b, ps)
    ensures var placed := PlaceAll(Progress(b, map[], rack), ps).0;
      var back := PickupAll(placed.board, PositionsOf(ps), placed.rack);
      back.2 == Ok(()) && back.1 == placed.rack + TilesOf(ps)
  {
    var placed := PlaceAll(Progress(b, map[], rack), ps).0;
    PlacedLetters(b, ps, rack);
    PickupLetters(placed.board, ps, placed.rack);
  }

  /** Picking up the letters of a move from squares that hold them returns them to the rack, in order. */
  lemma PickupLetters(board: BoardState, ps: seq<Placement>, rack: seq<LetterTile>)
    requires Distinct(PositionsOf(ps))
    requires forall i :: 0 <= i < |ps| ==>
      ps[i].position in board.squares && board.squares[ps[i].position].letterTile == Some(ps[i].tile)
    ensures PickupAll(board, PositionsOf(ps), rack).2 == Ok(())
    ensures PickupAll(board, PositionsOf(ps), rack).1 == rack + TilesOf(ps)
  {
    var qs := PositionsOf(ps);
    PickupAllSpec(board, qs, rack);
    var back := PickupAll(board, qs, rack);
    var tiles := TilesOf(ps);
    forall i | 0 <= i < |tiles| ensures back.1[|rack| + i] == tiles[i] {
      assert Some(back.1[|rack| + i]) == board.squares[qs[i]].letterTile;
    }
    Appended(back.1, rack, tiles);
  }

  /** A sequence that starts with `r` and continues with the elements of `t` is `r + t`. */
  lemma Appended<T>(s: seq<T>, r: seq<T>, t: seq<T>)
    requires |s| == |r| + |t| && s[..|r|] == r
    requires forall i :: 0 <= i < |t| ==> s[|r| + i] == t[i]
    ensures s == r + t
  {
    forall i | 0 <= i < |s| ensures s[i] == (r + t)[i] {
      if i >= |r| {
        assert s[|r| + (i - |r|)] == t[i - |r|];
      } else {
        assert s[i] == s[..|r|][i];
      }
    }
  }

  /** After a move is placed on empty squares, each of its squares holds its letter. */
  lemma PlacedLetters(b: BoardState, ps: seq<Placement>, rack: seq<LetterTile>)
    requires Placeable(b, ps)
    ensures var placed := PlaceAll(Progress(b, map[], rack), ps).0;
      forall i :: 0 <= i < |ps| ==>
        ps[i].position in placed.board.squares && placed.board.squares[ps[i].position].letterTile == Some(ps[i].tile)
  {
    var s := Progress(b, map[], rack);
    forall i | 0 <= i < |ps|
      ensures ps[i].position in PlaceAll(s, ps).0.board.squares
      ensures PlaceAll(s, ps).0.board.squares[ps[i].position].letterTile == Some(ps[i].tile)
    {
      PlaceAllCovers(s, ps, i);
    }
  }

  /**
   * A successful challenge puts the special tiles back: after a move was
   * placed on empty squares and its letters picked up again, re-placing the
   * logged special tiles in any order of the log's squares succeeds and
   * gives back the board as it was before the move. This needs the special
   * tiles on each square to have distinct owners, which is what
   * `placeSpecialTile` keeps.
   */
  lemma ChallengeRestoresBoard(b: BoardState, ps: seq<Placement>, rack: seq<LetterTile>, order: seq<Position>)
    requires Placeable(b, ps) && OneTilePerOwner(b)
    requires Distinct(order)
    requires forall q :: q in order <==> q in PlaceAll(Progress(b, map[], rack), ps).0.triggered
    ensures var placed := PlaceAll(Progress(b, map[], rack), ps).0;
      var back := PickupAll(placed.board, PositionsOf(ps), placed.rack);
      ReplaceAll(back.0, placed.triggered, order).0 == b && ReplaceAll(back.0, placed.triggered, order).1 == Ok(())
  {
    var s := Progress(b, map[], rack);
    var placed := PlaceAll(s, ps).0;
    var back := PickupAll(placed.board, PositionsOf(ps), placed.rack);
    forall i | 0 <= i < |order|
      ensures order[i] in back.0.squares && !HasLetterAt(back.0, order[i]) && back.0.squares[order[i]].specialTiles == []
      ensures OwnersDistinct(LogAt(placed.triggered, order[i]))
    {
      LoggedSquareIsFree(b, ps, rack, order[i]);
    }
    ReplaceAllRestores(back.0, placed.triggered, order);
    forall q | q in b.squares ensures Restored(back.0, placed.triggered, order).squares[q] == b.squares[q] {
      RestoredSquare(b, ps, rack, order, q);
    }
    assert Restored(back.0, placed.triggered, order).squares == b.squares;
  }

  /** A square with a log entry was under the move and, once picked up, is empty and holds its old special tiles in the log. */
  lemma LoggedSquareIsFree(b: BoardState, ps: seq<Placement>, rack: seq<LetterTile>, q: Position)
    requires Placeable(b, ps) && OneTilePerOwner(b)
    requires q in PlaceAll(Progress(b, map[], rack), ps).0.triggered
    ensures var placed := PlaceAll(Progress(b, map[], rack), ps).0;
      var back := PickupAll(placed.board, PositionsOf(ps), placed.rack);
      && q in back.0.squares && !HasLetterAt(back.0, q) && back.0.squares[q].specialTiles == []
      && OwnersDistinct(LogAt(placed.triggered, q))
  {
    var s := Progress(b, map[], rack);
    PlaceAllFillsLogs(s, ps);
    var placed := PlaceAll(s, ps).0;
    assert LogAt(placed.triggered, q) != [];
    if q !in b.squares {
      PlaceAllLogsOnBoard(s, ps, q);
    } else {
      PlaceAllLogAt(s, ps, q);
      PickupAfterPlace(b, ps, rack, q);
    }
  }

  /** Each square of the board comes back as it was once the logged tiles are written back. */
  lemma RestoredSquare(b: BoardState, ps: seq<Placement>, rack: seq<LetterTile>, order: seq<Position>, q: Position)
    requires Placeable(b, ps) && q in b.squares
    requires forall q :: q in order <==> q in PlaceAll(Progress(b, map[], rack), ps).0.triggered
    ensures var placed := PlaceAll(Progress(b, map[], rack), ps).0;
      var back := PickupAll(placed.board, PositionsOf(ps), placed.rack);
      Restored(back.0, placed.triggered, order).squares[q] == b.squares[q]
  {
    var placed := PlaceAll(Progress(b, map[], rack), ps).0;
    var back := PickupAll(placed.board, PositionsOf(ps), placed.rack);
    var covered := q in PositionsOf(ps);
    RolledBackSquare(b, ps, rack, q);
    RestoredFrom(b, back.0, placed.triggered, order, q, covered);
  }

  /** What placing a move and picking its letters up leaves at square `q`, and what it logs there. */
  lemma RolledBackSquare(b: BoardState, ps: seq<Placement>, rack: seq<LetterTile>, q: Position)
    requires Placeable(b, ps) && q in b.squares
    ensures var placed := PlaceAll(Progress(b, map[], rack), ps).0;
      var back := PickupAll(placed.board, PositionsOf(ps), placed.rack);
      var covered := q in PositionsOf(ps);
      && NoEmptyLogs(placed.triggered)
      && LogAt(placed.triggered, q) == (if covered then b.squares[q].specialTiles else [])
      && back.0.squares[q] == (if covered then b.squares[q].(specialTiles := []) else b.squares[q])
  {
    var s := Progress(b, map[], rack);
    PlaceAllFillsLogs(s, ps);
    assert LogAt(s.triggered, q) == [];
    PlaceAllLogAt(s, ps, q);
    PickupAfterPlace(b, ps, rack, q);
  }

  /**
   * A square whose logged tiles are exactly the special tiles the move
   * took from it comes back as it was.
   */
  lemma RestoredFrom(b: BoardState, back: BoardState, log: map<Position, seq<SpecialTile>>, order: seq<Position>, q: Position, covered: bool)
    requires q in b.squares && q in back.squares && NoEmptyLogs(log)
    requires q in order <==> q in log
    requires back.squares[q] == if covered then b.squares[q].(specialTiles := []) else b.squares[q]
    requires LogAt(log, q) == if covered then b.squares[q].specialTiles else []
    ensures Restored(back, log, order).squares[q] == b.squares[q]
  {
  }

  /** If the rack held the move's tiles, a successful challenge gives the player the same tiles back. */
  lemma ChallengeReturnsTiles(b: BoardState, ps: seq<Placement>, rack: seq<LetterTile>)
    requires Placeable(b, ps) && multiset(TilesOf(ps)) <= multiset(rack)
    ensures var placed := PlaceAll(Progress(b, map[], rack), ps).0;
      multiset(placed.rack + TilesOf(ps)) == multiset(rack)
  {
    PlaceAllRack(Progress(b, map[], rack), ps);
  }

  // ---------------------------------------------------------------------------
  // At most one special tile per owner on a square
  // ---------------------------------------------------------------------------

  /** Same shape, and every square keeps its special tiles or loses all of them. */
  predicate KeepsOrClearsSpecials(a: BoardState, b: BoardState)
  {
    && SameShape(a, b)
    && forall q :: q in b.squares ==>
      b.squares[q].specialTiles == a.squares[q].specialTiles || b.squares[q].specialTiles == []
  }

  /** Keeping or clearing twice is keeping or clearing. */
  lemma KeepsOrClearsTwice(a: BoardState, b: BoardState, c: BoardState)
    requires KeepsOrClearsSpecials(a, b) && KeepsOrClearsSpecials(b, c)
    ensures KeepsOrClearsSpecials(a, c)
  {
    forall q | q in c.squares
      ensures c.squares[q].specialTiles == a.squares[q].specialTiles || c.squares[q].specialTiles == []
    {
      assert q in b.squares;
    }
  }

  /** A change that only keeps or clears special tiles keeps them one per owner. */
  lemma KeepsOrClearsKeepsOneTilePerOwner(a: BoardState, b: BoardState)
    requires OneTilePerOwner(a) && KeepsOrClearsSpecials(a, b)
    ensures OneTilePerOwner(b)
  {
    forall q, i, j | q in b.squares && 0 <= i < j < |b.squares[q].specialTiles|
      ensures b.squares[q].specialTiles[i].owner != b.squares[q].specialTiles[j].owner
    {
      assert q in a.squares;
    }
  }

  /** One placing step clears the square's special tiles and touches no other. */
  lemma PlaceStepKeepsOrClears(s: Progress, pl: Placement)
    ensures KeepsOrClearsSpecials(s.board, PlaceStep(s, pl).0.board)
  {
    var p := pl.position;
    if p in s.board.squares {
      var cleared := ClearSpecials(s.board, p);
      assert KeepsOrClearsSpecials(s.board, cleared);
      var b := PlaceStep(s, pl).0.board;
      assert b == cleared || b == PutLetter(cleared, p, pl.tile);
      assert forall q :: q in b.squares ==> b.squares[q].specialTiles == cleared.squares[q].specialTiles;
    }
  }

  /** Placing a move only clears special tiles, whether or not it throws. */
  lemma {:induction false} PlaceAllKeepsOrClears(s: Progress, ps: seq<Placement>)
    ensures KeepsOrClearsSpecials(s.board, PlaceAll(s, ps).0.board)
    decreases |ps|
  {
    if ps == [] {
    } else {
      var step := PlaceStep(s, ps[0]);
      PlaceStepKeepsOrClears(s, ps[0]);
      if step.1.Ok? {
        PlaceAllKeepsOrClears(step.0, ps[1..]);
        KeepsOrClearsTwice(s.board, step.0.board, PlaceAll(s, ps).0.board);
      }
    }
  }

  /** Picking letters up leaves every special tile where it is. */
  lemma {:induction false} PickupAllKeepsOrClears(b: BoardState, qs: seq<Position>, rack: seq<LetterTile>)
    ensures KeepsOrClearsSpecials(b, PickupAll(b, qs, rack).0)
    decreases |qs|
  {
    if qs != [] && qs[0] in b.squares {
      var next := RemoveLetter(b, qs[0]);
      PickupAllKeepsOrClears(next, qs[1..], WithTile(rack, b.squares[qs[0]].letterTile));
      KeepsOrClearsTwice(b, next, PickupAll(b, qs, rack).0);
    }
  }

  /** Re-placing special tiles one by one, as the board allows, keeps them one per owner. */
  lemma {:induction false} PlaceSpecialsKeepsOneTilePerOwner(b: BoardState, p: Position, ts: seq<SpecialTile>)
    requires OneTilePerOwner(b)
    ensures OneTilePerOwner(PlaceSpecials(b, p, ts).0)
    decreases |ts|
  {
    if ts != [] {
      var step := PlaceSpecial(b, p, ts[0]);
      if step.1.Ok? {
        PutSpecialKeepsOneTilePerOwner(b, p, ts[0]);
        PlaceSpecialsKeepsOneTilePerOwner(step.0, p, ts[1..]);
      }
    }
  }

  /** The same for the outer loop over the log's squares. */
  lemma {:induction false} ReplaceAllKeepsOneTilePerOwner(b: BoardState, log: map<Position, seq<SpecialTile>>, order: seq<Position>)
    requires OneTilePerOwner(b)
    ensures OneTilePerOwner(ReplaceAll(b, log, order).0)
    decreases |order|
  {
    if order != [] {
      var step := PlaceSpecials(b, order[0], LogAt(log, order[0]));
      PlaceSpecialsKeepsOneTilePerOwner(b, order[0], LogAt(log, order[0]));
      if step.1.Ok? {
        ReplaceAllKeepsOneTilePerOwner(step.0, log, order[1..]);
      }
    }
  }

  // ---------------------------------------------------------------------------
  // A placed move while its turn lasts
  // ---------------------------------------------------------------------------

  /**
   * What holds of a placed move until its turn ends: each placement's square
   * holds the placed tile and no special tile (none can be put on a lettered
   * square), and the trigger log has entries only at the move's squares,
   * each listing tiles of distinct owners.
   */
  predicate Stands(b: BoardState, ps: seq<Placement>, log: map<Position, seq<SpecialTile>>)
  {
    && (forall i :: 0 <= i < |ps| ==>
      && ps[i].position in b.squares
      && b.squares[ps[i].position].letterTile == Some(ps[i].tile)
      && b.squares[ps[i].position].specialTiles == [])
    && (forall q :: q in log ==> q in PositionsOf(ps) && OwnersDistinct(log[q]))
  }

  /** A move placed on empty squares, starting from an empty log, stands. */
  lemma PlaceAllStands(s: Progress, ps: seq<Placement>)
    requires s.triggered == map[] && Placeable(s.board, ps) && OneTilePerOwner(s.board)
    ensures Stands(PlaceAll(s, ps).0.board, ps, PlaceAll(s, ps).0.triggered)
  {
    var placed := PlaceAll(s, ps).0;
    forall i | 0 <= i < |ps|
      ensures placed.board.squares[ps[i].position] == Covered(s.board.squares[ps[i].position], ps[i].tile)
    {
      PlaceAllCovers(s, ps, i);
    }
    PlaceAllFillsLogs(s, ps);
    forall q | q in placed.triggered ensures q in PositionsOf(ps) && OwnersDistinct(placed.triggered[q]) {
      assert LogAt(placed.triggered, q) == placed.triggered[q] != [];
      if q !in s.board.squares {
        PlaceAllLogsOnBoard(s, ps, q);
      } else {
        PlaceAllLogAt(s, ps, q);
      }
    }
  }

  /**
   * A move of distinct positions placed in full from an empty log stands,
   * and the board still holds at most one special tile per owner on a
   * square.
   */
  lemma PlacedMoveStands(s: Progress, ps: seq<Placement>)
    requires s.triggered == map[] && OneTilePerOwner(s.board) && Distinct(PositionsOf(ps))
    requires PlaceAll(s, ps).1 == Ok(())
    ensures Stands(PlaceAll(s, ps).0.board, ps, PlaceAll(s, ps).0.triggered)
    ensures OneTilePerOwner(PlaceAll(s, ps).0.board)
  {
    PlaceAllOkIffPlaceable(s, ps);
    PlaceAllStands(s, ps);
    PlaceAllKeepsOrClears(s, ps);
    KeepsOrClearsKeepsOneTilePerOwner(s.board, PlaceAll(s, ps).0.board);
  }

  /** Putting a special tile on a square without a letter leaves a standing move standing. */
  lemma PutSpecialKeepsStanding(b: BoardState, ps: seq<Placement>, log: map<Position, seq<SpecialTile>>, p: Position, t: SpecialTile)
    requires Stands(b, ps, log) && p in b.squares && !HasLetterAt(b, p)
    ensures Stands(PutSpecial(b, p, t), ps, log)
  {
  }

  /**
   * The board once a standing move is rolled back: each of the move's
   * squares loses its letter and gets back its logged special tiles; every
   * other square is as it was.
   */
  function RolledBack(b: BoardState, ps: seq<Placement>, log: map<Position, seq<SpecialTile>>): BoardState
  {
    b.(squares := map q | q in b.squares ::
      if q in PositionsOf(ps) then b.squares[q].(letterTile := None, specialTiles := LogAt(log, q)) else b.squares[q])
  }

  /** Picking up the letters of a standing move succeeds and appends its tiles, in order, to the rack. */
  lemma PickupOfStandingMove(b: BoardState, ps: seq<Placement>, log: map<Position, seq<SpecialTile>>, rack: seq<LetterTile>)
    requires Stands(b, ps, log) && Distinct(PositionsOf(ps))
    ensures PickupAll(b, PositionsOf(ps), rack).2.Ok?
    ensures PickupAll(b, PositionsOf(ps), rack).1 == rack + TilesOf(ps)
    ensures forall q :: q in b.squares ==>
      PickupAll(b, PositionsOf(ps), rack).0.squares[q] ==
        if q in PositionsOf(ps) then b.squares[q].(letterTile := None) else b.squares[q]
  {
    var qs := PositionsOf(ps);
    PickupAllSpec(b, qs, rack);
    var back := PickupAll(b, qs, rack);
    var tail := back.1[|rack|..];
    forall i | 0 <= i < |ps| ensures tail[i] == ps[i].tile {
      assert tail[i] == back.1[|rack| + i];
    }
    assert tail == TilesOf(ps);
    assert back.1 == back.1[..|rack|] + tail;
    forall q | q in b.squares && q in qs ensures back.0.squares[q] == b.squares[q].(letterTile := None) {
      var k :| 0 <= k < |qs| && qs[k] == q;
    }
  }

  /**
   * Rolling back a standing move: once its letters are picked up,
   * re-placing the logged special tiles, in any order of the log's squares,
   * succeeds and gives the rolled-back board.
   */
  lemma RollbackOfStandingMove(b: BoardState, ps: seq<Placement>, log: map<Position, seq<SpecialTile>>, order: seq<Position>, rack: seq<LetterTile>)
    requires Stands(b, ps, log) && Distinct(PositionsOf(ps))
    requires Distinct(order) && forall q :: q in order <==> q in log
    ensures PickupAll(b, PositionsOf(ps), rack).1 == rack + TilesOf(ps)
    ensures var back := PickupAll(b, PositionsOf(ps), rack).0;
      ReplaceAll(back, log, order).1.Ok? && ReplaceAll(back, log, order).0 == RolledBack(b, ps, log)
  {
    var qs := PositionsOf(ps);
    PickupOfStandingMove(b, ps, log, rack);
    var back := PickupAll(b, qs, rack).0;
    forall i | 0 <= i < |order|
      ensures order[i] in back.squares && !HasLetterAt(back, order[i]) && back.squares[order[i]].specialTiles == []
      ensures OwnersDistinct(LogAt(log, order[i]))
    {
      assert order[i] in order && order[i] in log;
      var k :| 0 <= k < |qs| && qs[k] == order[i];
    }
    ReplaceAllRestores(back, log, order);
    var restored := Restored(back, log, order);
    forall q | q in b.squares ensures restored.squares[q] == RolledBack(b, ps, log).squares[q] {
      if q in qs {
        var k :| 0 <= k < |qs| && qs[k] == q;
      }
    }
    assert restored.squares == RolledBack(b, ps, log).squares;
  }

  /** Rolling back a standing move keeps at most one special tile per owner on a square. */
  lemma RolledBackKeepsOneTilePerOwner(b: BoardState, ps: seq<Placement>, log: map<Position, seq<SpecialTile>>)
    requires Stands(b, ps, log) && OneTilePerOwner(b)
    ensures OneTilePerOwner(RolledBack(b, ps, log))
  {
    var r := RolledBack(b, ps, log);
    forall q, i, j | q in r.squares && 0 <= i < j < |r.squares[q].specialTiles|
      ensures r.squares[q].specialTiles[i].owner != r.squares[q].specialTiles[j].owner
    {
      if q in PositionsOf(ps) && q in log {
        assert OwnersDistinct(log[q]);
      }
    }
  }

  // ---------------------------------------------------------------------------
  // The turn cycle
  // ---------------------------------------------------------------------------

  /** `((playerIndex + delta) % n + n) % n`. */
  function NextIndex(index: int, n: nat, delta: int): (r: int)
    requires n > 0
  {
    JavaRem(JavaRem(index + delta, n) + n, n)
  }

  /** The double remainder is the true (never negative) modulus, so the index stays in range for either direction. */
  lemma NextIndexIsModulus(index: int, n: nat, delta: int)
    requires n > 0
    ensures NextIndex(index, n, delta) == (index + delta) % n
    ensures 0 <= NextIndex(index, n, delta) < n
  {
    var a := index + delta;
    if a >= 0 {
      var m := a % n;
      ModUnique(m + n, n, 1, m);
    } else {
      var k := (-a) / n;
      var m := (-a) % n;
      assert -a == k * n + m;
      if m == 0 {
        ModUnique(n, n, 1, 0);
        ModUnique(a, n, -k, 0);
      } else {
        ModUnique(n - m, n, 0, n - m);
        ModUnique(a, n, -k - 1, n - m);
      }
    }
  }

  /**
   * `advancePlayer` as a value: step the index in the turn direction; if
   * the player there is waiting out a skip, drop one of their skip entries
   * and step again.
   */
  function Advance(players: seq<Player>, skipped: seq<Player>, index: int, delta: int): (r: (int, seq<Player>))
    requires |players| > 0
    decreases |skipped|
  {
    NextIndexIsModulus(index, |players|, delta);
    var next := NextIndex(index, |players|, delta);
    if players[next] in skipped then Advance(players, RemoveFirst(skipped, players[next]), next, delta)
    else (next, skipped)
  }

  /** The skipped players the advance passes over, in the order it visits them. */
  function Passed(players: seq<Player>, skipped: seq<Player>, index: int, delta: int): seq<Player>
    requires |players| > 0
    decreases |skipped|
  {
    NextIndexIsModulus(index, |players|, delta);
    var next := NextIndex(index, |players|, delta);
    if players[next] in skipped then [players[next]] + Passed(players, RemoveFirst(skipped, players[next]), next, delta)
    else []
  }

  /**
   * The advance lands on a player who is not waiting out a skip, inside
   * the list, and removes exactly one skip entry for each player it passes
   * over, and nothing else.
   */
  lemma {:induction false} AdvanceLands(players: seq<Player>, skipped: seq<Player>, index: int, delta: int)
    requires |players| > 0
    ensures var r := Advance(players, skipped, index, delta);
      && 0 <= r.0 < |players|
      && players[r.0] !in r.1
      && multiset(skipped) == multiset(r.1) + multiset(Passed(players, skipped, index, delta))
      && |r.1| + |Passed(players, skipped, index, delta)| == |skipped|
    decreases |skipped|
  {
    var next := NextIndex(index, |players|, delta);
    assert 0 <= next < |players| by { NextIndexIsModulus(index, |players|, delta); }
    if players[next] in skipped {
      var rest := RemoveFirst(skipped, players[next]);
      assert Advance(players, skipped, index, delta) == Advance(players, rest, next, delta);
      assert Passed(players, skipped, index, delta) == [players[next]] + Passed(players, rest, next, delta);
      AdvanceLands(players, rest, next, delta);
      assert multiset(skipped) == multiset(rest) + multiset{players[next]};
    } else {
      assert Advance(players, skipped, index, delta) == (next, skipped);
      assert Passed(players, skipped, index, delta) == [];
    }
  }

  /** With nobody waiting out a skip, the advance is a single step of the modulus. */
  lemma AdvanceWithoutSkips(players: seq<Player>, index: int, delta: int)
    requires |players| > 0
    ensures Advance(players, [], index, delta) == ((index + delta) % |players|, [])
  {
    NextIndexIsModulus(index, |players|, delta);
  }

  /**
   * `highestScoringPlayer` as a value: the position of the first player with
   * the largest score, since a later player replaces the candidate only with
   * a strictly larger score.
   */
  predicate IsFirstMaximum(scores: seq<int>, w: nat)
  {
    && w < |scores|
    && (forall i :: 0 <= i < |scores| ==> scores[i] <= scores[w])
    && (forall i :: 0 <= i < w ==> scores[i] < scores[w])
  }

  /** Only one position is the first maximum. */
  lemma FirstMaximumUnique(scores: seq<int>, v: nat, w: nat)
    requires IsFirstMaximum(scores, v) && IsFirstMaximum(scores, w)
    ensures v == w
  {
    assert scores[v] == scores[w];
  }
  /**
   * `highestScoringPlayer`'s scan: the candidate starts at the first score
   * and moves to a later one only when that is strictly larger.
   */
  function FirstMaximum(scores: seq<int>): (w: nat)
    requires |scores| > 0
    ensures IsFirstMaximum(scores, w)
    decreases |scores|
  {
    if |scores| == 1 then 0
    else
      var last := |scores| - 1;
      var w := FirstMaximum(scores[..last]);
      assert forall i :: 0 <= i < last ==> scores[..last][i] == scores[i];
      if scores[w] < scores[last] then last else w
  }

  // ---------------------------------------------------------------------------
  // Refilling a rack
  // ---------------------------------------------------------------------------

  /**
   * How many tiles `drawTilesForPlayer` draws: it draws one at a time while
   * the bag is not empty and the rack holds fewer than `limit` tiles.
   */
  function Need(rackSize: nat, bagSize: nat, limit: nat): (n: nat)
    ensures n <= bagSize
    ensures rackSize + n >= limit || n == bagSize
    ensures rackSize >= limit ==> n == 0
    ensures n == 0 || rackSize + n <= limit
  {
    if rackSize >= limit then 0
    else if limit - rackSize <= bagSize then limit - rackSize
    else bagSize
  }

  /** The draw loop runs exactly while `Need` is positive, and each draw lowers it by one. */
  lemma NeedStep(rackSize: nat, bagSize: nat, limit: nat)
    ensures Need(rackSize, bagSize, limit) > 0 <==> rackSize < limit && bagSize > 0
    ensures Need(rackSize, bagSize, limit) > 0 ==> Need(rackSize + 1, bagSize - 1, limit) == Need(rackSize, bagSize, limit) - 1
  {
  }
}
