/** A word formed on the board and its score (board/PlayedWord.java). */
module PlayedWords {
  import opened Letters

  /** The constructor copies the letter list, so a played word is a value. */
  datatype PlayedWord = PlayedWord(letters: seq<Letter>, score: int)

  /** `toString`: the names of the letters, concatenated in order. */
  method WordString(w: PlayedWord) returns (s: string)
    ensures |s| == |w.letters|
    ensures forall i :: 0 <= i < |s| ==> s[i] == Name(w.letters[i])
  {
    s := "";
    var i := 0;
    while i < |w.letters|
      invariant 0 <= i <= |w.letters|
      invariant |s| == i
      invariant forall k :: 0 <= k < i ==> s[k] == Name(w.letters[k])
    {
      s := s + [Name(w.letters[i])];
      i := i + 1;
    }
  }
}
