/** The edit applicator: replacing a misspelled span by a suggestion and
    moving the cursor by the length difference, for one word
    (`acceptTopSuggestion` and the menu's `applySuggestion`) and for every
    misspelled word of a line, right to left (`acceptAllTopSuggestions`). */
module EditApplicator {
  import opened Types
  import opened WordScanner

  /** `replaceRange(text, from, to)` on one line: columns [from, to) give
      way to text. */
  function ReplaceSpan(line: string, from: nat, to: nat, text: string): (r: string)
    requires from <= to <= |line|
    ensures |r| == |line| - (to - from) + |text|
    ensures r[..from] == line[..from]
    ensures r[from..from + |text|] == text
    ensures r[from + |text|..] == line[to..]
  {
    line[..from] + text + line[to..]
  }

  /** Putting the replaced text back over the replacement restores the
      line. */
  lemma ReplaceSpanUndo(line: string, from: nat, to: nat, text: string)
    requires from <= to <= |line|
    ensures var r := ReplaceSpan(line, from, to, text);
      from + |text| <= |r| && ReplaceSpan(r, from, from + |text|, line[from..to]) == line
  {
    var r := ReplaceSpan(line, from, to, text);
    assert r[..from] + line[from..to] + r[from + |text|..] == line[..from] + line[from..to] + line[to..];
    assert line[..from] + line[from..to] + line[to..] == line;
  }

  /** The column the cursor is set to after `w` is replaced by
      `replacement`: shifted by the length difference when the cursor was
      on the word's line strictly right of its start, kept otherwise.
      Nothing clamps the result. */
  function ShiftedColumn(saved: Position, w: MisspelledWord, replacement: string): int {
    if saved.line == w.from.line && saved.ch > w.from.ch then saved.ch + (|replacement| - |w.word|)
    else saved.ch
  }

  /** A cursor that was not inside the replaced word keeps its place in
      the text: left of the word the text before it is untouched; right of
      the word the text after it is untouched and the text before it is
      the corrected one. On another line the column does not move. */
  lemma ShiftKeepsPlace(line: string, saved: Position, w: MisspelledWord, replacement: string)
    requires 0 <= w.from.ch < w.to.ch <= |line| && w.word == line[w.from.ch..w.to.ch]
    requires 0 <= saved.ch <= |line|
    ensures saved.line != w.from.line ==> ShiftedColumn(saved, w, replacement) == saved.ch
    ensures var r := ReplaceSpan(line, w.from.ch, w.to.ch, replacement);
      var nc := ShiftedColumn(saved, w, replacement);
      saved.line == w.from.line ==>
        (saved.ch <= w.from.ch ==> nc == saved.ch && r[..nc] == line[..saved.ch]) &&
        (saved.ch >= w.to.ch ==>
          0 <= nc <= |r| && r[nc..] == line[saved.ch..] &&
          r[..nc] == line[..w.from.ch] + replacement + line[w.to.ch..saved.ch])
  {
    var r := ReplaceSpan(line, w.from.ch, w.to.ch, replacement);
    var nc := ShiftedColumn(saved, w, replacement);
    if saved.line == w.from.line && saved.ch >= w.to.ch {
      assert nc == w.from.ch + |replacement| + (saved.ch - w.to.ch);
      assert r == line[..w.from.ch] + replacement + line[w.to.ch..];
      assert line[w.to.ch..] == line[w.to.ch..saved.ch] + line[saved.ch..];
      assert r == (line[..w.from.ch] + replacement + line[w.to.ch..saved.ch]) + line[saved.ch..];
    }
  }

  /** With no clamping, a cursor inside a word that gets a shorter
      replacement can land left of the word's start, even below column 0. */
  lemma ShiftFromInsideWord()
    ensures var w := MisspelledWord("abcdef", Position(0, 0), Position(0, 6));
      ShiftedColumn(Position(0, 1), w, "a") == -4
  {
  }

  /** Spans that lie on the line and hold the text of their word. */
  predicate Matches(line: string, ws: seq<MisspelledWord>) {
    forall j :: 0 <= j < |ws| ==>
      0 <= ws[j].from.ch < ws[j].to.ch <= |line| && ws[j].word == line[ws[j].from.ch..ws[j].to.ch]
  }

  /** The scanner's records satisfy what the edits rely on. */
  lemma ScanMatches(lineText: string, lineNumber: int, spell: Option<Oracle>)
    ensures Matches(lineText, Scan(lineText, lineNumber, spell))
    ensures Ordered(Scan(lineText, lineNumber, spell))
  {
    var ws := Scan(lineText, lineNumber, spell);
    forall j | 0 <= j < |ws|
      ensures 0 <= ws[j].from.ch < ws[j].to.ch <= |lineText| && ws[j].word == lineText[ws[j].from.ch..ws[j].to.ch]
    {
      ScanSpanFidelity(lineText, lineNumber, spell, ws[j]);
    }
    ScanIsOrdered(lineText, lineNumber, spell);
  }

  /** The text batch acceptance leaves in a word's span: its top
      suggestion, or the word itself when there is none. */
  function Replacement(line: string, w: MisspelledWord, spell: Option<Oracle>): string
    requires 0 <= w.from.ch <= w.to.ch <= |line|
  {
    var s := Suggestions(spell, w.word);
    if |s| > 0 then s[0] else line[w.from.ch..w.to.ch]
  }

  /** The line after the batch loop has handled ws[i..], last index first.
      Every lower-index span is still in place: the text before ws[i] is
      the original one. */
  function BatchLine(line: string, ws: seq<MisspelledWord>, spell: Option<Oracle>, i: nat): (r: string)
    requires i <= |ws| && Matches(line, ws) && Ordered(ws)
    ensures var bound := if i < |ws| then ws[i].from.ch else |line|;
      bound <= |r| && r[..bound] == line[..bound]
    decreases |ws| - i
  {
    if i == |ws| then line
    else
      var rest := BatchLine(line, ws, spell, i + 1);
      var s := Suggestions(spell, ws[i].word);
      assert ws[i].to.ch <= (if i + 1 < |ws| then ws[i + 1].from.ch else |line|);
      if |s| > 0 then ReplaceSpan(rest, ws[i].from.ch, ws[i].to.ch, s[0]) else rest
  }

  /** One turn of the batch loop: the span of ws[i] still lies on the line
      left by the later turns, the turn replaces it there when the word
      has a suggestion, and it adds the length difference to the total
      when the word also starts left of the saved cursor column. */
  lemma BatchStep(line: string, ws: seq<MisspelledWord>, spell: Option<Oracle>, savedCh: int, i: nat)
    requires i < |ws| && Matches(line, ws) && Ordered(ws)
    ensures var prev := BatchLine(line, ws, spell, i + 1);
      var s := Suggestions(spell, ws[i].word);
      0 <= ws[i].from.ch < ws[i].to.ch <= |prev| &&
      BatchLine(line, ws, spell, i) == (if |s| > 0 then ReplaceSpan(prev, ws[i].from.ch, ws[i].to.ch, s[0]) else prev) &&
      BatchDelta(ws, spell, savedCh, i) ==
        BatchDelta(ws, spell, savedCh, i + 1) + (if |s| > 0 && savedCh > ws[i].from.ch then |s[0]| - |ws[i].word| else 0)
  {
    assert ws[i].to.ch <= (if i + 1 < |ws| then ws[i + 1].from.ch else |line|);
  }

  /** `totalLengthDiff` after the batch loop has handled ws[i..]: the
      length differences of the replaced words that start left of the
      saved cursor column. */
  function BatchDelta(ws: seq<MisspelledWord>, spell: Option<Oracle>, savedCh: int, i: nat): int
    requires i <= |ws|
    decreases |ws| - i
  {
    if i == |ws| then 0
    else
      var s := Suggestions(spell, ws[i].word);
      var d := if |s| > 0 && savedCh > ws[i].from.ch then |s[0]| - |ws[i].word| else 0;
      BatchDelta(ws, spell, savedCh, i + 1) + d
  }

  /** The reference for the batch: line[pos..end) read left to right with
      each of ws[i..j) given its replacement, all columns taken in the
      original line. */
  function Spliced(line: string, ws: seq<MisspelledWord>, spell: Option<Oracle>, i: nat, j: nat, pos: nat, end: nat): string
    requires i <= j <= |ws| && Matches(line, ws) && Ordered(ws) && end <= |line|
    requires pos <= (if i < j then ws[i].from.ch else end)
    requires i < j ==> ws[j - 1].to.ch <= end
    decreases j - i
  {
    if i == j then line[pos..end]
    else
      assert ws[i].to.ch <= (if i + 1 < j then ws[i + 1].from.ch else end);
      line[pos..ws[i].from.ch] + Replacement(line, ws[i], spell) + Spliced(line, ws, spell, i + 1, j, ws[i].to.ch, end)
  }

  /** The sum of the length differences of ws[i..j). */
  function DeltaSum(line: string, ws: seq<MisspelledWord>, spell: Option<Oracle>, i: nat, j: nat): int
    requires i <= j <= |ws| && Matches(line, ws)
    decreases j - i
  {
    if i == j then 0
    else |Replacement(line, ws[i], spell)| - (ws[i].to.ch - ws[i].from.ch) + DeltaSum(line, ws, spell, i + 1, j)
  }

  /** Cutting a line into pieces and putting them back together. */
  lemma Reassemble(line: string, pos: nat, f: nat, t: nat, tail: string, rep: string)
    requires pos <= f <= t <= |line|
    ensures (line[..t] + tail)[..f] + rep + (line[..t] + tail)[t..] == line[..pos] + (line[pos..f] + rep + tail)
    ensures line[..t] + tail == line[..pos] + (line[pos..f] + line[f..t] + tail)
  {
    assert (line[..t] + tail)[..f] == line[..f];
    assert (line[..t] + tail)[t..] == tail;
    assert line[..f] == line[..pos] + line[pos..f];
    assert line[..t] == line[..pos] + line[pos..f] + line[f..t];
  }

  /** Right-to-left replacement gives the same line as reading the
      original line left to right with every span replaced: no edit ever
      disturbs a span still waiting to be handled. */
  lemma {:induction false} BatchIsSplice(line: string, ws: seq<MisspelledWord>, spell: Option<Oracle>, i: nat, pos: nat)
    requires i <= |ws| && Matches(line, ws) && Ordered(ws)
    requires pos <= (if i < |ws| then ws[i].from.ch else |line|)
    ensures BatchLine(line, ws, spell, i) == line[..pos] + Spliced(line, ws, spell, i, |ws|, pos, |line|)
    decreases |ws| - i
  {
    if i == |ws| {
      assert line == line[..pos] + line[pos..|line|];
    } else {
      var w := ws[i];
      assert w.to.ch <= (if i + 1 < |ws| then ws[i + 1].from.ch else |line|);
      BatchIsSplice(line, ws, spell, i + 1, w.to.ch);
      var tail := Spliced(line, ws, spell, i + 1, |ws|, w.to.ch, |line|);
      Reassemble(line, pos, w.from.ch, w.to.ch, tail, Replacement(line, w, spell));
    }
  }

  /** Cutting a stretch of original text in two. */
  lemma CutText(line: string, pos: nat, mid: nat, f: nat, rest: string)
    requires pos <= mid <= f <= |line|
    ensures line[pos..f] + rest == line[pos..mid] + (line[mid..f] + rest)
  {
    assert line[pos..f] == line[pos..mid] + line[mid..f];
  }

  lemma Regroup(head: string, a: string, b: string)
    ensures head + (a + b) == (head + a) + b
  {
  }

  /** SpliceSplit when the cut lies before the first span of the stretch. */
  lemma SpliceSplitAtStart(line: string, ws: seq<MisspelledWord>, spell: Option<Oracle>, k: nat, pos: nat, mid: nat)
    requires k <= |ws| && Matches(line, ws) && Ordered(ws)
    requires pos <= mid <= (if k < |ws| then ws[k].from.ch else |line|)
    ensures Spliced(line, ws, spell, k, |ws|, pos, |line|)
         == Spliced(line, ws, spell, k, k, pos, mid) + Spliced(line, ws, spell, k, |ws|, mid, |line|)
  {
    if k < |ws| {
      assert ws[k].to.ch <= (if k + 1 < |ws| then ws[k + 1].from.ch else |line|);
      var f := ws[k].from.ch;
      var rep := Replacement(line, ws[k], spell);
      var tail := Spliced(line, ws, spell, k + 1, |ws|, ws[k].to.ch, |line|);
      assert Spliced(line, ws, spell, k, |ws|, pos, |line|) == line[pos..f] + rep + tail;
      assert Spliced(line, ws, spell, k, |ws|, mid, |line|) == line[mid..f] + rep + tail;
      Regroup(line[pos..f], rep, tail);
      Regroup(line[mid..f], rep, tail);
      CutText(line, pos, mid, f, rep + tail);
    } else {
      CutText(line, pos, mid, |line|, []);
    }
  }

  /** A spliced stretch that reaches past a cut point between two spans
      is the stretch up to the cut followed by the stretch after it. */
  lemma {:induction false} SpliceSplit(line: string, ws: seq<MisspelledWord>, spell: Option<Oracle>, i: nat, k: nat, pos: nat, mid: nat)
    requires i <= k <= |ws| && Matches(line, ws) && Ordered(ws)
    requires pos <= (if i < k then ws[i].from.ch else mid)
    requires i < k ==> ws[k - 1].to.ch <= mid
    requires mid <= (if k < |ws| then ws[k].from.ch else |line|)
    ensures Spliced(line, ws, spell, i, |ws|, pos, |line|)
         == Spliced(line, ws, spell, i, k, pos, mid) + Spliced(line, ws, spell, k, |ws|, mid, |line|)
    decreases k - i
  {
    if i == k {
      SpliceSplitAtStart(line, ws, spell, k, pos, mid);
    } else {
      assert ws[i].to.ch <= (if i + 1 < k then ws[i + 1].from.ch else mid);
      SpliceSplit(line, ws, spell, i + 1, k, ws[i].to.ch, mid);
      var head := line[pos..ws[i].from.ch] + Replacement(line, ws[i], spell);
      var left := Spliced(line, ws, spell, i + 1, k, ws[i].to.ch, mid);
      var right := Spliced(line, ws, spell, k, |ws|, mid, |line|);
      assert Spliced(line, ws, spell, i, |ws|, pos, |line|) == head + (left + right);
      assert Spliced(line, ws, spell, i, k, pos, mid) == head + left;
      Regroup(head, left, right);
    }
  }

  /** The length of a spliced stretch: its original length plus the
      length differences of the spans inside it. */
  lemma {:induction false} SpliceLength(line: string, ws: seq<MisspelledWord>, spell: Option<Oracle>, i: nat, j: nat, pos: nat, end: nat)
    requires i <= j <= |ws| && Matches(line, ws) && Ordered(ws) && end <= |line|
    requires pos <= (if i < j then ws[i].from.ch else end)
    requires i < j ==> ws[j - 1].to.ch <= end
    ensures |Spliced(line, ws, spell, i, j, pos, end)| == end - pos + DeltaSum(line, ws, spell, i, j)
    decreases j - i
  {
    if i < j {
      assert ws[i].to.ch <= (if i + 1 < j then ws[i + 1].from.ch else end);
      SpliceLength(line, ws, spell, i + 1, j, ws[i].to.ch, end);
    }
  }

  /** The batch's cumulative delta is the sum of the length differences of
      the spans left of the cursor, when the cursor lies between spans. */
  lemma {:induction false} BatchDeltaIsLeftSum(line: string, ws: seq<MisspelledWord>, spell: Option<Oracle>, savedCh: int, i: nat, k: nat)
    requires i <= k <= |ws| && Matches(line, ws)
    requires forall j :: i <= j < k ==> ws[j].to.ch <= savedCh
    requires forall j :: k <= j < |ws| ==> savedCh <= ws[j].from.ch
    ensures BatchDelta(ws, spell, savedCh, i) == DeltaSum(line, ws, spell, i, k)
    decreases |ws| - i
  {
    if i < |ws| {
      BatchDeltaIsLeftSum(line, ws, spell, savedCh, i + 1, if i < k then k else i + 1);
      if i == k {
        BatchDeltaZero(line, ws, spell, savedCh, i);
      }
    }
  }

  /** Spans that all start at or right of the cursor contribute nothing. */
  lemma {:induction false} BatchDeltaZero(line: string, ws: seq<MisspelledWord>, spell: Option<Oracle>, savedCh: int, i: nat)
    requires i <= |ws|
    requires forall j :: i <= j < |ws| ==> savedCh <= ws[j].from.ch
    ensures BatchDelta(ws, spell, savedCh, i) == 0
    decreases |ws| - i
  {
    if i < |ws| {
      BatchDeltaZero(line, ws, spell, savedCh, i + 1);
    }
  }

  /** Batch acceptance keeps the cursor in its place: when the saved
      cursor lies between spans (ws[..k] end at or before it, ws[k..]
      start at or after it), the new column splits the corrected line
      into the corrected text that was left of the cursor and the
      corrected text that was right of it. */
  lemma BatchCursorKeepsPlace(line: string, ws: seq<MisspelledWord>, spell: Option<Oracle>, savedCh: nat, k: nat)
    requires Matches(line, ws) && Ordered(ws) && savedCh <= |line| && k <= |ws|
    requires forall j :: 0 <= j < k ==> ws[j].to.ch <= savedCh
    requires forall j :: k <= j < |ws| ==> savedCh <= ws[j].from.ch
    ensures var r := BatchLine(line, ws, spell, 0);
      var nc := savedCh + BatchDelta(ws, spell, savedCh, 0);
      0 <= nc <= |r| &&
      r[..nc] == Spliced(line, ws, spell, 0, k, 0, savedCh) &&
      r[nc..] == Spliced(line, ws, spell, k, |ws|, savedCh, |line|)
  {
    BatchIsSplice(line, ws, spell, 0, 0);
    SpliceSplit(line, ws, spell, 0, k, 0, savedCh);
    SpliceLength(line, ws, spell, 0, k, 0, savedCh);
    BatchDeltaIsLeftSum(line, ws, spell, savedCh, 0, k);
    var left := Spliced(line, ws, spell, 0, k, 0, savedCh);
    var right := Spliced(line, ws, spell, k, |ws|, savedCh, |line|);
    assert BatchLine(line, ws, spell, 0) == left + right;
  }
}
