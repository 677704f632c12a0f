/**
 * The bag of letter tiles players draw from and swap with
 * (letters/TileBag.java, letters/DefaultTileBag.java).
 *
 * `java.util.Random` is replaced by a stream of naturals: the bag's `k`th call
 * of `nextInt(n)` answers `random(k) % n`, so every draw is a function of the
 * stream and of how many draws came before.
 */
module TileBags {
  import opened Wrappers
  import opened Letters
  import opened JavaInts

  /** `MAX_SWAP`: the most tiles one swap may exchange, and the least the bag must hold for a swap. */
  const MaxSwap: nat := 7

  /** The list with its `k`th entry taken out, as `ArrayList.remove(int)` leaves it. */
  function RemoveAt<T>(s: seq<T>, k: nat): (r: seq<T>)
    requires k < |s|
    ensures |r| == |s| - 1
    decreases k
  {
    if k == 0 then s[1..] else [s[0]] + RemoveAt(s[1..], k - 1)
  }

  /** Taking an entry out keeps every other entry: with it put back, the multiset is the same. */
  lemma RemoveAtCounts<T>(s: seq<T>, k: nat)
    requires k < |s|
    ensures multiset(RemoveAt(s, k)) + multiset{s[k]} == multiset(s)
    decreases k
  {
    assert s == [s[0]] + s[1..];
    if k > 0 {
      RemoveAtCounts(s[1..], k - 1);
    }
  }

  /** `r` brought below `size` by repeated subtraction. */
  function Reduce(r: nat, size: nat): (k: nat)
    requires size > 0
    ensures k < size
    decreases r
  {
    if r < size then r else Reduce(r - size, size)
  }

  /** Repeated subtraction leaves `r` as some multiple of `size` plus what `Reduce` returns. */
  lemma {:induction false} ReduceQuotient(r: nat, size: nat) returns (q: nat)
    requires size > 0
    ensures r == q * size + Reduce(r, size)
    decreases r
  {
    if r < size {
      q := 0;
    } else {
      var q' := ReduceQuotient(r - size, size);
      q := q' + 1;
      assert q * size == q' * size + size;
    }
  }

  /** Repeated subtraction is the remainder: `Reduce` is `%` on naturals. */
  lemma ReduceIsRemainder(r: nat, size: nat)
    requires size > 0
    ensures Reduce(r, size) == r % size
  {
    var q := ReduceQuotient(r, size);
    ModUnique(r, size, q, Reduce(r, size));
  }

  /** The answer of the stream's `from`th call of `nextInt(size)`: stream entry `from` modulo `size`. */
  function Pick(random: nat -> nat, from: nat, size: nat): (k: nat)
    requires size > 0
    ensures k < size
  {
    Reduce(random(from), size)
  }

  /**
   * `n` successive draws from `tiles`, the `i`th answered by stream entry
   * `from + i`: the tiles drawn, in the order drawn, and the tiles left.
   */
  function Draws<T>(tiles: seq<T>, random: nat -> nat, from: nat, n: nat)
    : (r: (seq<T>, seq<T>))
    requires n <= |tiles|
    ensures |r.0| == n && |r.1| == |tiles| - n
    decreases n
  {
    if n == 0 then ([], tiles)
    else
      var k := Pick(random, from, |tiles|);
      var rest := Draws(RemoveAt(tiles, k), random, from + 1, n - 1);
      ([tiles[k]] + rest.0, rest.1)
  }

  /** Drawing moves tiles out of the bag and creates or loses none: drawn and left together are the bag. */
  lemma {:induction false} DrawsPermutes<T>(tiles: seq<T>, random: nat -> nat, from: nat, n: nat)
    requires n <= |tiles|
    ensures var d := Draws(tiles, random, from, n); multiset(d.0) + multiset(d.1) == multiset(tiles)
    decreases n
  {
    if n > 0 {
      var k := Pick(random, from, |tiles|);
      var left := RemoveAt(tiles, k);
      var rest := Draws(left, random, from + 1, n - 1);
      RemoveAtCounts(tiles, k);
      DrawsPermutes(left, random, from + 1, n - 1);
      assert Draws(tiles, random, from, n) == ([tiles[k]] + rest.0, rest.1);
    }
  }

  /** `n` draws are `i` draws followed by `n - i` draws from what those left. */
  lemma {:induction false} DrawsSplit<T>(tiles: seq<T>, random: nat -> nat, from: nat, i: nat, n: nat)
    requires i <= n <= |tiles|
    ensures var a := Draws(tiles, random, from, i);
      var b := Draws(a.1, random, from + i, n - i);
      Draws(tiles, random, from, n).0 == a.0 + b.0 && Draws(tiles, random, from, n).1 == b.1
    decreases i
  {
    if i > 0 {
      var k := Pick(random, from, |tiles|);
      var left := RemoveAt(tiles, k);
      DrawsSplit(left, random, from + 1, i - 1, n - 1);
      var a' := Draws(left, random, from + 1, i - 1);
      var b := Draws(a'.1, random, from + i, n - i);
      assert ([tiles[k]] + a'.0) + b.0 == [tiles[k]] + (a'.0 + b.0);
    } else {
      assert [] + Draws(tiles, random, from, n).0 == Draws(tiles, random, from, n).0;
    }
  }

  /** One more draw after `i` draws takes the tile the stream picks from what is left. */
  lemma DrawOneMore<T>(tiles: seq<T>, random: nat -> nat, from: nat, i: nat)
    requires i < |tiles|
    ensures var a := Draws(tiles, random, from, i);
      var k := Pick(random, from + i, |a.1|);
      Draws(tiles, random, from, i + 1) == (a.0 + [a.1[k]], RemoveAt(a.1, k))
  {
    DrawsSplit(tiles, random, from, i, i + 1);
    var a := Draws(tiles, random, from, i);
    var k := Pick(random, from + i, |a.1|);
    var rest := Draws(RemoveAt(a.1, k), random, from + i + 1, 0);
    assert rest == ([], RemoveAt(a.1, k));
    assert [a.1[k]] + rest.0 == [a.1[k]];
    assert Draws(a.1, random, from + i, 1) == ([a.1[k]], RemoveAt(a.1, k));
  }

  class TileBag {
    var tiles: seq<LetterTile>
    /** The values the bag's `Random` hands out, one per draw. */
    const random: nat -> nat
    /** How many draws the bag has made. */
    var draws: nat

    /** `new TileBag(tiles, random)`: the bag holds a copy of the list. */
    constructor (tiles: seq<LetterTile>, random: nat -> nat)
      ensures this.tiles == tiles && this.random == random && draws == 0
    {
      this.tiles := tiles;
      this.random := random;
      draws := 0;
    }

    /** `canSwapTiles`. */
    predicate CanSwapTiles()
      reads this
    {
      |tiles| >= MaxSwap
    }

    /** `isEmpty`. */
    predicate IsEmpty()
      reads this
    {
      |tiles| == 0
    }

    /**
     * `drawTile`: removes and returns the tile at the index the stream picks.
     * On an empty bag `nextInt(0)` throws and nothing changes.
     */
    method DrawTile() returns (r: Result<LetterTile>)
      modifies this`tiles, this`draws
      ensures old(IsEmpty()) ==>
        r == Err(IllegalArgument("bound must be positive")) && tiles == old(tiles) && draws == old(draws)
      ensures !old(IsEmpty()) ==>
        var k := Pick(random, old(draws), |old(tiles)|);
        r == Ok(old(tiles)[k]) && tiles == RemoveAt(old(tiles), k) && draws == old(draws) + 1
      ensures r.Ok? ==> |tiles| == |old(tiles)| - 1
    {
      if |tiles| == 0 {
        return Err(IllegalArgument("bound must be positive"));
      }
      var k := Pick(random, draws, |tiles|);
      r := Ok(tiles[k]);
      tiles := RemoveAt(tiles, k);
      draws := draws + 1;
    }

    /** `swapTiles`'s drawing loop: `count` draws in a row, collected in the order drawn. */
    method DrawMany(count: nat) returns (drawn: seq<LetterTile>)
      requires count <= |tiles|
      modifies this`tiles, this`draws
      ensures var d := Draws(old(tiles), random, old(draws), count);
        drawn == d.0 && tiles == d.1 && draws == old(draws) + count
    {
      drawn := [];
      var i := 0;
      while i < count
        invariant 0 <= i <= count
        invariant drawn == Draws(old(tiles), random, old(draws), i).0
        invariant tiles == Draws(old(tiles), random, old(draws), i).1
        invariant draws == old(draws) + i
      {
        DrawOneMore(old(tiles), random, old(draws), i);
        var t := DrawTile();
        drawn := drawn + [t.value];
        i := i + 1;
      }
    }

    /**
     * `swapTiles`: after the three checks, draws one tile per old tile, and
     * only then puts the old tiles at the end of the bag, so no old tile can
     * come straight back.
     */
    method SwapTiles(oldTiles: seq<LetterTile>) returns (r: Result<seq<LetterTile>>)
      modifies this`tiles, this`draws
      ensures !old(CanSwapTiles()) ==>
        r == Err(IllegalArgument("Cannot swap tiles")) && tiles == old(tiles) && draws == old(draws)
      ensures old(CanSwapTiles()) && |oldTiles| == 0 ==>
        r == Err(IllegalArgument("Must swap at least one tile")) && tiles == old(tiles) && draws == old(draws)
      ensures old(CanSwapTiles()) && |oldTiles| > MaxSwap ==>
        r == Err(IllegalArgument("Cannot swap more than MAX_SWAP tiles")) && tiles == old(tiles) && draws == old(draws)
      ensures old(CanSwapTiles()) && 0 < |oldTiles| <= MaxSwap ==>
        var d := Draws(old(tiles), random, old(draws), |oldTiles|);
        r == Ok(d.0) && tiles == d.1 + oldTiles && draws == old(draws) + |oldTiles|
      ensures r.Ok? ==>
        |r.value| == |oldTiles| && |tiles| == |old(tiles)| &&
        multiset(r.value) <= multiset(old(tiles)) &&
        multiset(tiles) + multiset(r.value) == multiset(old(tiles)) + multiset(oldTiles)
    {
      if !CanSwapTiles() {
        return Err(IllegalArgument("Cannot swap tiles"));
      }
      if |oldTiles| == 0 {
        return Err(IllegalArgument("Must swap at least one tile"));
      }
      if |oldTiles| > MaxSwap {
        return Err(IllegalArgument("Cannot swap more than MAX_SWAP tiles"));
      }
      var newTiles := DrawMany(|oldTiles|);
      DrawsPermutes(old(tiles), random, old(draws), |oldTiles|);
      tiles := tiles + oldTiles;
      return Ok(newTiles);
    }
  }

  /** How many tiles of each letter the default bag holds. */
  function NumberOfTiles(l: Letter): (n: nat)
    ensures 1 <= n <= 12
    ensures n == 1 <==> l in {K, J, X, Q, Z}
  {
    match l
    case E => 12
    case A | I => 9
    case O => 8
    case N | R | T => 6
    case L | S | U | D => 4
    case G => 3
    case K | J | X | Q | Z => 1
    case _ => 2
  }

  /** Each letter of `ls` repeated `NumberOfTiles` times, in the order of `ls`. */
  function Expanded(ls: seq<Letter>): seq<Letter>
  {
    if ls == [] then [] else seq(NumberOfTiles(ls[0]), _ => ls[0]) + Expanded(ls[1..])
  }

  /** The sum of the counts of the letters in `ls`. */
  function CountSum(ls: seq<Letter>): nat
  {
    if ls == [] then 0 else NumberOfTiles(ls[0]) + CountSum(ls[1..])
  }

  /** Expanding a list of distinct letters gives each letter exactly its count. */
  lemma {:induction false} ExpandedCounts(ls: seq<Letter>, l: Letter)
    requires forall i, j :: 0 <= i < j < |ls| ==> ls[i] != ls[j]
    ensures multiset(Expanded(ls))[l] == if l in ls then NumberOfTiles(l) else 0
    ensures |Expanded(ls)| == CountSum(ls)
  {
    if ls != [] {
      var run := seq(NumberOfTiles(ls[0]), _ => ls[0]);
      ExpandedCounts(ls[1..], l);
      RunCount(ls[0], NumberOfTiles(ls[0]), l);
      assert l in ls <==> l == ls[0] || l in ls[1..] by {
        assert ls == [ls[0]] + ls[1..];
      }
      assert ls[0] !in ls[1..];
    }
  }

  /** A run of `n` copies of `a` holds `l` exactly `n` times if `l` is `a`, and otherwise not at all. */
  lemma {:induction false} RunCount(a: Letter, n: nat, l: Letter)
    ensures multiset(seq(n, _ => a))[l] == if l == a then n else 0
  {
    if n > 0 {
      RunCount(a, n - 1, l);
      assert seq(n, _ => a) == seq(n - 1, _ => a) + [a];
    }
  }

  /** `Letter.values()` lists each letter once: the `i`th is the `i`th letter of the alphabet. */
  lemma AllLettersDistinct()
    ensures forall i, j :: 0 <= i < j < |AllLetters| ==> AllLetters[i] != AllLetters[j]
  {
    assert forall i :: 0 <= i < |AllLetters| ==> Name(AllLetters[i]) as int == 'A' as int + i;
  }

  /** The sum of counts splits over a concatenation. */
  lemma {:induction false} CountSumAppend(a: seq<Letter>, b: seq<Letter>)
    ensures CountSum(a + b) == CountSum(a) + CountSum(b)
  {
    if a == [] {
      assert a + b == b;
    } else {
      assert (a + b)[1..] == a[1..] + b;
      CountSumAppend(a[1..], b);
    }
  }

  /** The counts of the first seven letters. */
  lemma CountsAToG()
    ensures CountSum([A, B, C, D, E, F, G]) == 34
  {
  }

  /** The counts of the next six letters. */
  lemma CountsHToM()
    ensures CountSum([H, I, J, K, L, M]) == 19
  {
  }

  /** The counts of the next seven letters. */
  lemma CountsNToT()
    ensures CountSum([N, O, P, Q, R, S, T]) == 33
  {
  }

  /** The counts of the last six letters. */
  lemma CountsUToZ()
    ensures CountSum([U, V, W, X, Y, Z]) == 12
  {
  }

  /** `Letter.values()` cut into the four groups above. */
  lemma AllLettersInFour()
    ensures AllLetters ==
      [A, B, C, D, E, F, G] + [H, I, J, K, L, M] + [N, O, P, Q, R, S, T] + [U, V, W, X, Y, Z]
  {
  }

  /** The default counts sum to 98, as the doc-comment of `numberOfTiles` says. */
  lemma DefaultCountsSumTo98()
    ensures CountSum(AllLetters) == 98
  {
    var first, second := [A, B, C, D, E, F, G], [H, I, J, K, L, M];
    var third, fourth := [N, O, P, Q, R, S, T], [U, V, W, X, Y, Z];
    CountsAToG();
    CountsHToM();
    CountsNToT();
    CountsUToZ();
    AllLettersInFour();
    CountSumAppend(first, second);
    CountSumAppend(first + second, third);
    CountSumAppend(first + second + third, fourth);
  }

  /** The default list holds 98 tiles: for every letter, exactly its count. */
  lemma DefaultLetters()
    ensures |Expanded(AllLetters)| == 98
    ensures forall l :: multiset(Expanded(AllLetters))[l] == NumberOfTiles(l)
  {
    AllLettersDistinct();
    DefaultCountsSumTo98();
    ExpandedCounts(AllLetters, A);
    forall l ensures multiset(Expanded(AllLetters))[l] == NumberOfTiles(l) {
      ExpandedCounts(AllLetters, l);
      assert l in AllLetters by {
        assert AllLetters[Ordinal(l)] == l;
      }
    }
  }

  /** The position of `l` in `Letter.values()`. */
  function Ordinal(l: Letter): (i: nat)
    ensures i < |AllLetters| && AllLetters[i] == l
  {
    match l
    case A => 0 case B => 1 case C => 2 case D => 3 case E => 4
    case F => 5 case G => 6 case H => 7 case I => 8 case J => 9
    case K => 10 case L => 11 case M => 12 case N => 13 case O => 14
    case P => 15 case Q => 16 case R => 17 case S => 18 case T => 19
    case U => 20 case V => 21 case W => 22 case X => 23 case Y => 24
    case Z => 25
  }

  /**
   * The default tile list, as the static initialiser of `DefaultTileBag`
   * builds it: for each letter in order, that many fresh tiles, all distinct.
   */
  method BuildDefaultTiles() returns (tiles: seq<LetterTile>)
    ensures LettersOfTiles(tiles) == Expanded(AllLetters)
    ensures forall i :: 0 <= i < |tiles| ==> fresh(tiles[i])
    ensures forall i, j :: 0 <= i < j < |tiles| ==> tiles[i] != tiles[j]
  {
    tiles := [];
    var k := 0;
    while k < |AllLetters|
      invariant 0 <= k <= |AllLetters|
      invariant LettersOfTiles(tiles) == Expanded(AllLetters[..k])
      invariant forall i :: 0 <= i < |tiles| ==> fresh(tiles[i])
      invariant forall i, j :: 0 <= i < j < |tiles| ==> tiles[i] != tiles[j]
    {
      var letter := AllLetters[k];
      var i := 0;
      while i < NumberOfTiles(letter)
        invariant 0 <= i <= NumberOfTiles(letter)
        invariant LettersOfTiles(tiles) == Expanded(AllLetters[..k]) + seq(i, _ => letter)
        invariant forall i :: 0 <= i < |tiles| ==> fresh(tiles[i])
        invariant forall i, j :: 0 <= i < j < |tiles| ==> tiles[i] != tiles[j]
      {
        var t := new LetterTile(letter);
        tiles := tiles + [t];
        i := i + 1;
      }
      ExpandedSnoc(AllLetters[..k + 1]);
      assert AllLetters[..k + 1][..k] == AllLetters[..k];
      k := k + 1;
    }
    assert AllLetters[..k] == AllLetters;
  }

  /** The letters the tiles show, in order. */
  function LettersOfTiles(tiles: seq<LetterTile>): (ls: seq<Letter>)
    ensures |ls| == |tiles|
    ensures forall i :: 0 <= i < |tiles| ==> ls[i] == tiles[i].letter
  {
    seq(|tiles|, i requires 0 <= i < |tiles| => tiles[i].letter)
  }

  /** Expanding one more letter appends that letter's run. */
  lemma {:induction false} ExpandedSnoc(ls: seq<Letter>)
    requires ls != []
    ensures Expanded(ls) == Expanded(ls[..|ls| - 1]) + seq(NumberOfTiles(ls[|ls| - 1]), _ => ls[|ls| - 1])
    decreases |ls|
  {
    if |ls| > 1 {
      ExpandedSnoc(ls[1..]);
      assert ls[1..][..|ls| - 2] == ls[..|ls| - 1][1..];
    }
  }

  /** `DefaultTileBag.create(random)`: a bag holding a copy of the default list. */
  method Create(defaultTiles: seq<LetterTile>, random: nat -> nat) returns (bag: TileBag)
    ensures fresh(bag) && bag.tiles == defaultTiles && bag.random == random && bag.draws == 0
  {
    bag := new TileBag(defaultTiles, random);
  }
}
