/** Worked examples: the tokenizer on quotes, digits and apostrophes, the
    resolver's choice on a small line, and batch acceptance on the line
    "Helo wrold". */
module Samples {
  import opened Types
  import opened WordScanner
  import opened PositionResolver
  import opened EditApplicator
  import opened Host
  import opened SpellChecking

  /** Leading and trailing apostrophes are not part of the match: the
      closing `\b` makes the greedy run back off the final quote, and no
      `\b` precedes the opening one. */
  lemma QuotesDropped()
    ensures TokensFrom("'hello'", 0) == [Span(1, 6)]
  {
    var s := "'hello'";
    assert !IsBoundary(s, 0);
    assert MatchAt(s, 0) == None;
    assert RunEnd(s, 1) == 7;
    assert !IsBoundary(s, 7) && IsBoundary(s, 6);
    assert MatchAt(s, 1) == Some(6);
    assert Exec(s, 0) == Some(Span(1, 6));
    assert RunEnd(s, 6) == 7;
    assert MatchAt(s, 6) == None;
    assert MatchAt(s, 7) == None;
    assert Exec(s, 6) == None;
  }

  /** Letters running into a digit give no match at all. */
  lemma DigitBlocks()
    ensures TokensFrom("abc1", 0) == []
  {
  }

  /** An apostrophe between letters stays inside the match. */
  lemma InnerApostropheKept()
    ensures TokensFrom("don't", 0) == [Span(0, 5)]
  {
    var s := "don't";
    assert RunEnd(s, 0) == 5;
    assert MatchAt(s, 0) == Some(5);
    assert Exec(s, 5) == None;
  }

  /** A dictionary that knows "Hello" and "world" and suggests them for
      "Helo" and "wrold". */
  function SampleOracle(): Oracle {
    Oracle(w => w == "Hello" || w == "world",
           w => if w == "Helo" then ["Hello"] else if w == "wrold" then ["world"] else [],
           {})
  }

  function SampleWords(): seq<MisspelledWord> {
    [MisspelledWord("Helo", Position(0, 0), Position(0, 4)), MisspelledWord("wrold", Position(0, 5), Position(0, 10))]
  }

  lemma SampleTokens()
    ensures TokensFrom("Helo wrold", 0) == [Span(0, 4), Span(5, 10)]
  {
    var line := "Helo wrold";
    assert RunEnd(line, 0) == 4;
    assert MatchAt(line, 0) == Some(4);
    assert MatchAt(line, 4) == None;
    assert RunEnd(line, 5) == 10;
    assert MatchAt(line, 5) == Some(10);
    assert Exec(line, 4) == Some(Span(5, 10));
    assert Exec(line, 10) == None;
  }

  lemma SampleSlices()
    ensures "Helo wrold"[0..4] == "Helo" && "Helo wrold"[5..10] == "wrold"
  {
  }

  /** The second match of "Helo wrold" gives the record of "wrold". */
  lemma SampleScanTail()
    ensures Misspellings("Helo wrold", 0, Some(SampleOracle()), [Span(5, 10)]) == [SampleWords()[1]]
  {
    var line := "Helo wrold";
    var spell := Some(SampleOracle());
    SampleSlices();
    assert !IsCorrect(spell, "wrold");
    assert [Span(5, 10)][1..] == [];
    assert Misspellings(line, 0, spell, []) == [];
  }

  /** The scanner reports both words of "Helo wrold". */
  lemma SampleScan()
    ensures Scan("Helo wrold", 0, Some(SampleOracle())) == SampleWords()
  {
    var line := "Helo wrold";
    SampleSlices();
    SampleTokens();
    SampleScanTail();
    var spell := Some(SampleOracle());
    assert !IsCorrect(spell, "Helo");
    var ts := [Span(0, 4), Span(5, 10)];
    assert ts[1..] == [Span(5, 10)];
    assert Misspellings(line, 0, spell, ts) == [SampleWords()[0]] + [SampleWords()[1]];
  }

  /** The cursor at the end of "Helo" is inside it (both ends count); the
      cursor in the middle of "wrold" is inside that word. */
  lemma SampleClosest()
    ensures ClosestIndex(SampleWords(), 4) == 0
    ensures ClosestIndex(SampleWords(), 7) == 1
  {
    var ws := SampleWords();
    assert IsClosest(ws, 4, 0);
    ClosestUnique(ws, 4, 0, ClosestIndex(ws, 4));
    assert !Holds(ws[0], 7) && Holds(ws[1], 7);
    assert IsClosest(ws, 7, 1);
    ClosestUnique(ws, 7, 1, ClosestIndex(ws, 7));
  }

  /** Batch acceptance on the two words of "Helo wrold". */
  lemma SampleBatch()
    ensures Matches("Helo wrold", SampleWords()) && Ordered(SampleWords())
    ensures BatchLine("Helo wrold", SampleWords(), Some(SampleOracle()), 0) == "Hello world"
    ensures 10 + BatchDelta(SampleWords(), Some(SampleOracle()), 10, 0) == 11
  {
    var line := "Helo wrold";
    var ws := SampleWords();
    var spell := Some(SampleOracle());
    SampleSlices();
    assert Suggestions(spell, "Helo") == ["Hello"];
    assert Suggestions(spell, "wrold") == ["world"];
    assert BatchLine(line, ws, spell, 1) == "Helo world";
  }

  /** Accepting every top suggestion on "Helo wrold" with the cursor at
      column 10 gives "Hello world" with the cursor at column 11. */
  lemma SampleAcceptAll()
    ensures AllAccepted(["Helo wrold"], Position(0, 10), Some(SampleOracle()), ["Hello world"], Position(0, 11))
  {
    var spell := Some(SampleOracle());
    SampleScan();
    assert LineWords("Helo wrold", 0, spell) == SampleWords();
    SampleBatch();
    OneLineUpdate("Helo wrold", "Hello world");
    assert ClipPos(["Hello world"], Position(0, 11)) == Position(0, 11);
  }

  /** Setting the only line of a one-line document. */
  lemma OneLineUpdate(a: string, b: string)
    ensures [a][0 := b] == [b]
  {
  }
}
