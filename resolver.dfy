/** The position resolver: `findClosestWord`, which picks the misspelled
    word the cursor is in, else the nearest one to its left, else the
    nearest one to its right. Only columns are compared, never lines. */
module PositionResolver {
  import opened Types

  /** `cursor.ch >= word.from.ch && cursor.ch <= word.to.ch`: both ends count. */
  predicate Holds(w: MisspelledWord, c: int) {
    w.from.ch <= c <= w.to.ch
  }

  /** `word.to.ch <= cursor.ch`: the word ends at or before the cursor. */
  predicate IsLeft(w: MisspelledWord, c: int) {
    w.to.ch <= c
  }

  /** `word.from.ch > cursor.ch`: the word starts after the cursor. */
  predicate IsRight(w: MisspelledWord, c: int) {
    w.from.ch > c
  }

  /** words[i] is the first word that holds the cursor. */
  predicate FirstHolding(words: seq<MisspelledWord>, c: int, i: int) {
    0 <= i < |words| && Holds(words[i], c) &&
    forall j :: 0 <= j < i ==> !Holds(words[j], c)
  }

  /** Among words[..n], words[i] is a left word at the least distance
      `cursor.ch - to.ch`, and the first one at that distance. */
  predicate NearestLeft(words: seq<MisspelledWord>, c: int, i: int, n: int) {
    0 <= i < n <= |words| && IsLeft(words[i], c) &&
    (forall j :: 0 <= j < n && IsLeft(words[j], c) ==> c - words[j].to.ch >= c - words[i].to.ch) &&
    (forall j :: 0 <= j < i && IsLeft(words[j], c) ==> c - words[j].to.ch > c - words[i].to.ch)
  }

  /** Among words[..n], words[i] is a right word at the least distance
      `from.ch - cursor.ch`, and the first one at that distance. */
  predicate NearestRight(words: seq<MisspelledWord>, c: int, i: int, n: int) {
    0 <= i < n <= |words| && IsRight(words[i], c) &&
    (forall j :: 0 <= j < n && IsRight(words[j], c) ==> words[j].from.ch - c >= words[i].from.ch - c) &&
    (forall j :: 0 <= j < i && IsRight(words[j], c) ==> words[j].from.ch - c > words[i].from.ch - c)
  }

  /** The resolver's rule: holding the cursor beats lying to its left,
      which beats lying to its right. */
  predicate IsClosest(words: seq<MisspelledWord>, c: int, i: int) {
    if exists j :: 0 <= j < |words| && Holds(words[j], c) then FirstHolding(words, c, i)
    else if exists j :: 0 <= j < |words| && IsLeft(words[j], c) then NearestLeft(words, c, i, |words|)
    else NearestRight(words, c, i, |words|)
  }

  /** Every word that does not hold the cursor lies to its left or to its
      right, whatever its columns. */
  lemma EveryWordPlaced(w: MisspelledWord, c: int)
    ensures Holds(w, c) || IsLeft(w, c) || IsRight(w, c)
  {
  }

  lemma {:induction false} FirstHoldingExists(words: seq<MisspelledWord>, c: int, n: nat)
    requires n <= |words|
    requires exists j :: 0 <= j < n && Holds(words[j], c)
    ensures exists i :: FirstHolding(words, c, i) && i < n
  {
    if exists j :: 0 <= j < n - 1 && Holds(words[j], c) {
      FirstHoldingExists(words, c, n - 1);
    } else {
      assert FirstHolding(words, c, n - 1);
    }
  }

  lemma {:induction false} NearestLeftExists(words: seq<MisspelledWord>, c: int, n: nat)
    requires n <= |words|
    requires exists j :: 0 <= j < n && IsLeft(words[j], c)
    ensures exists i :: NearestLeft(words, c, i, n)
  {
    if exists j :: 0 <= j < n - 1 && IsLeft(words[j], c) {
      NearestLeftExists(words, c, n - 1);
      var i :| NearestLeft(words, c, i, n - 1);
      if IsLeft(words[n - 1], c) && c - words[n - 1].to.ch < c - words[i].to.ch {
        assert NearestLeft(words, c, n - 1, n);
      } else {
        assert NearestLeft(words, c, i, n);
      }
    } else {
      assert NearestLeft(words, c, n - 1, n);
    }
  }

  lemma {:induction false} NearestRightExists(words: seq<MisspelledWord>, c: int, n: nat)
    requires n <= |words|
    requires exists j :: 0 <= j < n && IsRight(words[j], c)
    ensures exists i :: NearestRight(words, c, i, n)
  {
    if exists j :: 0 <= j < n - 1 && IsRight(words[j], c) {
      NearestRightExists(words, c, n - 1);
      var i :| NearestRight(words, c, i, n - 1);
      if IsRight(words[n - 1], c) && words[n - 1].from.ch - c < words[i].from.ch - c {
        assert NearestRight(words, c, n - 1, n);
      } else {
        assert NearestRight(words, c, i, n);
      }
    } else {
      assert NearestRight(words, c, n - 1, n);
    }
  }

  /** A non-empty list always has a closest word, so the source's final
      fallback to `words[0]` is never taken. */
  lemma ClosestExists(words: seq<MisspelledWord>, c: int)
    requires |words| > 0
    ensures exists i :: IsClosest(words, c, i)
  {
    if exists j :: 0 <= j < |words| && Holds(words[j], c) {
      FirstHoldingExists(words, c, |words|);
      var i :| FirstHolding(words, c, i) && i < |words|;
      assert IsClosest(words, c, i);
    } else if exists j :: 0 <= j < |words| && IsLeft(words[j], c) {
      NearestLeftExists(words, c, |words|);
      var i :| NearestLeft(words, c, i, |words|);
      assert IsClosest(words, c, i);
    } else {
      EveryWordPlaced(words[0], c);
      NearestRightExists(words, c, |words|);
      var i :| NearestRight(words, c, i, |words|);
      assert IsClosest(words, c, i);
    }
  }

  /** The rule names one word only. */
  lemma ClosestUnique(words: seq<MisspelledWord>, c: int, i: int, k: int)
    requires IsClosest(words, c, i) && IsClosest(words, c, k)
    ensures i == k
  {
  }

  /** The position of the closest word of a non-empty list. */
  ghost function ClosestIndex(words: seq<MisspelledWord>, c: int): (i: nat)
    requires |words| > 0
    ensures i < |words| && IsClosest(words, c, i)
  {
    ClosestExists(words, c);
    var i :| IsClosest(words, c, i);
    i
  }

  /** `findClosestWord(words, cursor)`: null exactly for an empty list,
      otherwise the word the resolver's rule picks. */
  method FindClosestWord(words: seq<MisspelledWord>, cursor: Position) returns (r: Option<MisspelledWord>)
    ensures r.None? <==> |words| == 0
    ensures r.Some? ==> r.value == words[ClosestIndex(words, cursor.ch)]
  {
    var c := cursor.ch;
    r := None;
    if |words| == 0 {
      return;
    }

    for i := 0 to |words|
      invariant forall j :: 0 <= j < i ==> !Holds(words[j], c)
    {
      if Holds(words[i], c) {
        assert FirstHolding(words, c, i);
        ClosestUnique(words, c, i, ClosestIndex(words, c));
        r := Some(words[i]);
        return;
      }
    }

    // `leftWord` is null while `leftDistance` is still Infinity.
    var leftWord: Option<MisspelledWord> := None;
    var leftDistance := 0;
    ghost var leftIndex := 0;
    for i := 0 to |words|
      invariant leftWord.None? ==> forall j :: 0 <= j < i ==> !IsLeft(words[j], c)
      invariant leftWord.Some? ==>
        NearestLeft(words, c, leftIndex, i) && leftWord.value == words[leftIndex] &&
        leftDistance == c - words[leftIndex].to.ch
    {
      if IsLeft(words[i], c) {
        var distance := c - words[i].to.ch;
        if leftWord.None? || distance < leftDistance {
          leftDistance := distance;
          leftWord := Some(words[i]);
          leftIndex := i;
        }
      }
    }
    if leftWord.Some? {
      ClosestUnique(words, c, leftIndex, ClosestIndex(words, c));
      r := leftWord;
      return;
    }

    var rightWord: Option<MisspelledWord> := None;
    var rightDistance := 0;
    ghost var rightIndex := 0;
    for i := 0 to |words|
      invariant i > 0 ==> rightWord.Some?
      invariant rightWord.Some? ==>
        NearestRight(words, c, rightIndex, i) && rightWord.value == words[rightIndex] &&
        rightDistance == words[rightIndex].from.ch - c
    {
      EveryWordPlaced(words[i], c);
      if IsRight(words[i], c) {
        var distance := words[i].from.ch - c;
        if rightWord.None? || distance < rightDistance {
          rightDistance := distance;
          rightWord := Some(words[i]);
          rightIndex := i;
        }
      }
    }
    // `rightWord || words[0]`: the fallback is unreachable, since a word
    // that neither holds the cursor nor lies to its left lies to its right.
    assert rightWord.Some?;
    ClosestUnique(words, c, rightIndex, ClosestIndex(words, c));
    r := rightWord;
  }
}
