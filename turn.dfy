/**
 * One player's turn: four flags that gate the actions still allowed, the
 * move placed on the turn, and the special tiles that move set off
 * (game/Turn.java).
 */
module Turns {
  import opened Wrappers
  import opened Geometry
  import opened Players
  import opened Moves

  class Turn {
    const player: Player
    var letterActionTaken: bool
    var specialActionTaken: bool
    var challengeActionTaken: bool
    var endActionTaken: bool
    var playedMove: Option<Move>
    /** The special tiles removed from each square by the placed move, in the order they were removed. */
    var triggered: map<Position, seq<SpecialTile>>

    /** A new turn: nothing taken, no move, nothing triggered. */
    constructor (player: Player)
      ensures this.player == player
      ensures !letterActionTaken && !specialActionTaken && !challengeActionTaken && !endActionTaken
      ensures playedMove == None && triggered == map[]
    {
      this.player := player;
      letterActionTaken := false;
      specialActionTaken := false;
      challengeActionTaken := false;
      endActionTaken := false;
      playedMove := None;
      triggered := map[];
    }

    /** The list of tiles triggered at `p`, empty when there is none. */
    function TriggeredAt(p: Position): seq<SpecialTile>
      reads this
    {
      if p in triggered then triggered[p] else []
    }

    /** `addTriggeredSpecialTile`: appends `t` to the list at `p`, creating the list when there is none. */
    method AddTriggeredSpecialTile(p: Position, t: SpecialTile)
      modifies this`triggered
      ensures triggered == old(triggered)[p := old(TriggeredAt(p)) + [t]]
    {
      if p !in triggered {
        triggered := triggered[p := []];
      }
      triggered := triggered[p := triggered[p] + [t]];
    }

    /** `clearTriggeredSpecialTiles`. */
    method ClearTriggeredSpecialTiles()
      modifies this`triggered
      ensures triggered == map[]
    {
      triggered := map[];
    }

    /** `canTakeLetterAction`: the turn is not over, no letter action was taken, and `p` is the turn's player. */
    predicate CanTakeLetterAction(p: Player)
      reads this
    {
      !endActionTaken && !letterActionTaken && p == player
    }

    /** `takeLetterAction`: sets the flag, whoever asks. */
    method TakeLetterAction(p: Player)
      modifies this`letterActionTaken
      ensures letterActionTaken
    {
      letterActionTaken := true;
    }

    /** `canTakeSpecialAction`: the turn is not over, no special action was taken, and `p` is the turn's player. */
    predicate CanTakeSpecialAction(p: Player)
      reads this
    {
      !endActionTaken && !specialActionTaken && p == player
    }

    /** `takeSpecialAction`: sets the flag, whoever asks. */
    method TakeSpecialAction(p: Player)
      modifies this`specialActionTaken
      ensures specialActionTaken
    {
      specialActionTaken := true;
    }

    /**
     * `canTakeChallengeAction`: the turn is not over, a move was placed, no
     * challenge was made, and `p` is someone other than the turn's player.
     */
    predicate CanTakeChallengeAction(p: Player)
      reads this
    {
      !endActionTaken && playedMove.Some? && !challengeActionTaken && p != player
    }

    /** `takeChallengeAction`: sets the flag, whoever asks. */
    method TakeChallengeAction(p: Player)
      modifies this`challengeActionTaken
      ensures challengeActionTaken
    {
      challengeActionTaken := true;
    }

    /** `canTakeEndAction`: `p` is the turn's player and the turn is not over. */
    predicate CanTakeEndAction(p: Player)
      reads this
    {
      p == player && !endActionTaken
    }

    /** `takeEndAction`: ends the turn only when the turn's player asks. */
    method TakeEndAction(p: Player)
      modifies this`endActionTaken
      ensures endActionTaken == (old(endActionTaken) || p == player)
    {
      if player == p {
        endActionTaken := true;
      }
    }

    /** `setPlayedMove`, where `None` is null. */
    method SetPlayedMove(m: Option<Move>)
      modifies this`playedMove
      ensures playedMove == m
    {
      playedMove := m;
    }
  }

  /** Once a turn is over, no one can take any action on it. */
  lemma EndedTurnAllowsNothing(t: Turn, p: Player)
    requires t.endActionTaken
    ensures !t.CanTakeLetterAction(p) && !t.CanTakeSpecialAction(p)
    ensures !t.CanTakeChallengeAction(p) && !t.CanTakeEndAction(p)
  {
  }

  /** The letter, special and end gates admit only the turn's player; the challenge gate admits only someone else. */
  lemma GatesSeparatePlayers(t: Turn, p: Player)
    ensures t.CanTakeLetterAction(p) || t.CanTakeSpecialAction(p) || t.CanTakeEndAction(p) ==> p == t.player
    ensures t.CanTakeChallengeAction(p) ==> p != t.player && t.playedMove.Some?
  {
  }
}
