/**
 * Players and the special tiles they own (game/Player.java,
 * specialtile/SpecialTile.java). The two classes refer to each other, so they
 * share a module.
 */
module Players {
  import opened Wrappers
  import opened Letters

  /**
   * A player. Java hands out its rack and special-tile lists live, and the
   * game changes them in place, so they are mutable fields here.
   */
  class Player {
    const name: string
    var score: int
    var letterTiles: seq<LetterTile>
    var specialTiles: seq<SpecialTile>

    constructor Named(name: string)
      requires |name| > 0
      ensures this.name == name
      ensures score == 0 && letterTiles == [] && specialTiles == []
    {
      this.name := name;
      score := 0;
      letterTiles := [];
      specialTiles := [];
    }

    /** `setScore`. */
    method SetScore(s: int)
      modifies this`score
      ensures score == s
    {
      score := s;
    }
  }

  /**
   * `new Player(name)`, where `None` is a null name: a null or empty name
   * throws, anything else gives a player with score 0 and two empty lists.
   */
  method NewPlayer(name: Option<string>) returns (r: Result<Player>)
    ensures r.Err? <==> name.None? || |name.value| == 0
    ensures r.Ok? ==> fresh(r.value) && r.value.name == name.value
    ensures r.Ok? ==> r.value.score == 0 && r.value.letterTiles == [] && r.value.specialTiles == []
  {
    if name.None? || |name.value| == 0 {
      return Err(IllegalArgument("Names must be non-null and contain at least one character."));
    }
    var p := new Player.Named(name.value);
    return Ok(p);
  }

  /** `toString` of a player: its name, a colon and its score. */
  function PlayerString(name: string, score: int): (s: string)
    ensures |s| > |name| + 1
    ensures s[..|name|] == name && s[|name|] == ':'
    ensures score >= 0 ==> DigitsValue(s[|name| + 1..]) == score
    ensures score < 0 ==> s[|name| + 1] == '-'
  {
    var digits := IntString(score);
    assert (name + ":" + digits)[|name| + 1..] == digits;
    name + ":" + digits
  }

  /** The five kinds of special tile the game ships with. */
  datatype SpecialKind = NegativePoints | Reverse | Boom | StealScore | SkipTurn

  /**
   * A special tile: what it does when triggered and who bought it. Tiles are
   * compared by identity, and neither field changes after creation.
   */
  class SpecialTile {
    const kind: SpecialKind
    const owner: Player

    constructor (kind: SpecialKind, owner: Player)
      ensures this.kind == kind && this.owner == owner
    {
      this.kind := kind;
      this.owner := owner;
    }
  }
}
