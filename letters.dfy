/** Letters and the letter tiles that carry them (letters/Letter.java, letters/LetterTile.java). */
module Letters {

  /** The 26 letters, in the declaration order that `Letter.values()` follows. */
  datatype Letter =
    A | B | C | D | E | F | G | H | I | J | K | L | M |
    N | O | P | Q | R | S | T | U | V | W | X | Y | Z

  /** Every letter once, in declaration order. */
  const AllLetters: seq<Letter> :=
    [A, B, C, D, E, F, G, H, I, J, K, L, M, N, O, P, Q, R, S, T, U, V, W, X, Y, Z]

  /** The enum constant's name, which is what `toString` of a letter gives. */
  function Name(l: Letter): (c: char)
    ensures 'A' <= c <= 'Z'
  {
    match l
    case A => 'A' case B => 'B' case C => 'C' case D => 'D' case E => 'E'
    case F => 'F' case G => 'G' case H => 'H' case I => 'I' case J => 'J'
    case K => 'K' case L => 'L' case M => 'M' case N => 'N' case O => 'O'
    case P => 'P' case Q => 'Q' case R => 'R' case S => 'S' case T => 'T'
    case U => 'U' case V => 'V' case W => 'W' case X => 'X' case Y => 'Y'
    case Z => 'Z'
  }

  /**
   * The letter for a character. As written, 'J' yields E, 'R' yields S, and
   * every character that is not one of the upper-case letters A..Y yields Z.
   */
  function FromChar(c: char): (l: Letter)
    ensures l != J && l != R
    ensures !('A' <= c <= 'Y') ==> l == Z
  {
    match c
    case 'A' => A case 'B' => B case 'C' => C case 'D' => D case 'E' => E
    case 'F' => F case 'G' => G case 'H' => H case 'I' => I case 'J' => E
    case 'K' => K case 'L' => L case 'M' => M case 'N' => N case 'O' => O
    case 'P' => P case 'Q' => Q case 'R' => S case 'S' => S case 'T' => T
    case 'U' => U case 'V' => V case 'W' => W case 'X' => X case 'Y' => Y
    case _ => Z
  }

  /** `FromChar` undoes `Name` for every letter except J and R, which no character reaches. */
  lemma FromCharName(l: Letter)
    ensures FromChar(Name(l)) == (if l == J then E else if l == R then S else l)
  {
  }

  /** No character decodes to J or R, so FromChar is not onto the letters. */
  lemma FromCharMissesJAndR(c: char)
    ensures FromChar(c) !in {J, R}
  {
  }

  /** The face value of a tile showing `l`. */
  function PointsForLetter(l: Letter): (p: int)
    ensures p in {1, 2, 3, 4, 5, 8, 10}
    ensures p == 1 <==> l in {A, E, I, L, N, O, R, S, T, U}
    ensures p == 10 <==> l in {Q, Z}
  {
    match l
    case D | G => 2
    case B | C | M | P => 3
    case F | H | V | W | Y => 4
    case K => 5
    case J | X => 8
    case Q | Z => 10
    case _ => 1
  }

  /**
   * A letter tile. Java compares tiles by identity (there is no `equals`), so a
   * tile is an object whose letter and points never change.
   */
  class LetterTile {
    const letter: Letter
    const points: int

    constructor (letter: Letter)
      ensures this.letter == letter
      ensures points == PointsForLetter(letter)
      ensures 1 <= points <= 10
    {
      this.letter := letter;
      points := PointsForLetter(letter);
    }
  }

  /** The decimal digits of a natural number. */
  function Decimal(n: nat): (s: string)
    ensures |s| >= 1
    ensures forall i :: 0 <= i < |s| ==> '0' <= s[i] <= '9'
  {
    if n < 10 then ['0' + n as char] else Decimal(n / 10) + ['0' + (n % 10) as char]
  }

  /** The decimal digits name the number back. */
  function DigitsValue(s: string): int
  {
    if s == [] then 0 else 10 * DigitsValue(s[..|s| - 1]) + (s[|s| - 1] as int - '0' as int)
  }

  lemma {:induction false} DecimalRoundTrip(n: nat)
    ensures DigitsValue(Decimal(n)) == n
  {
    if n >= 10 {
      DecimalRoundTrip(n / 10);
      var s := Decimal(n);
      assert s[..|s| - 1] == Decimal(n / 10);
    }
  }

  /** Java's decimal rendering of an int, with a leading minus sign when negative. */
  function IntString(n: int): (s: string)
    ensures |s| >= 1 && (n < 0 <==> s[0] == '-')
    ensures n >= 0 ==> DigitsValue(s) == n
    ensures n < 0 ==> DigitsValue(s[1..]) == -n
  {
    DecimalRoundTrip(if n < 0 then -n else n);
    if n < 0 then "-" + Decimal(-n) else Decimal(n)
  }

  /** `toString` of a tile: its letter, a colon and its points, as in "Q:10". */
  function TileString(t: LetterTile): (s: string)
    requires t.points >= 0
    ensures |s| >= 3 && s[0] == Name(t.letter) && s[1] == ':'
    ensures DigitsValue(s[2..]) == t.points
  {
    DecimalRoundTrip(t.points);
    [Name(t.letter), ':'] + Decimal(t.points)
  }
}
