/** The word scanner: `findMisspelledWordsInLine`, which runs the global
    regular expression /\b[a-zA-Z']+\b/g over one line, drops matches
    shorter than two characters and keeps those the oracle rejects.

    The regular expression is modelled as ECMAScript evaluates it: `\b`
    compares the word characters [A-Za-z0-9_] on either side of a
    position (the apostrophe is NOT a word character), the `+` is greedy
    and backtracks until the closing `\b` holds, `exec` tries start
    positions from `lastIndex` upwards, and a successful match moves
    `lastIndex` to its end. */
module WordScanner {
  import opened Types

  /** A character of `\w`. */
  predicate IsWordChar(c: char) {
    'a' <= c <= 'z' || 'A' <= c <= 'Z' || '0' <= c <= '9' || c == '_'
  }

  /** A character of the class [a-zA-Z']. */
  predicate IsTokenChar(c: char) {
    'a' <= c <= 'z' || 'A' <= c <= 'Z' || c == '\''
  }

  /** `\b` holds at position i: exactly one of the characters around i is
      a word character (positions outside the line count as non-word). */
  predicate IsBoundary(s: string, i: nat)
    requires i <= |s|
  {
    (i > 0 && IsWordChar(s[i - 1])) != (i < |s| && IsWordChar(s[i]))
  }

  /** s[start..end) is a match of the whole pattern at start. */
  predicate IsToken(s: string, start: nat, end: nat) {
    start < end <= |s| && IsBoundary(s, start) && IsBoundary(s, end) &&
    forall k :: start <= k < end ==> IsTokenChar(s[k])
  }

  /** A match found by `exec`: [start, end) in columns of the line. */
  datatype Span = Span(start: nat, end: nat)

  /** The greedy `[a-zA-Z']+`: how far the run of class characters that
      begins at p reaches. */
  function RunEnd(s: string, p: nat): (e: nat)
    requires p <= |s|
    ensures p <= e <= |s|
    ensures forall k :: p <= k < e ==> IsTokenChar(s[k])
    ensures e < |s| ==> !IsTokenChar(s[e])
    decreases |s| - p
  {
    if p < |s| && IsTokenChar(s[p]) then RunEnd(s, p + 1) else p
  }

  /** Backtracking from the greedy end e: the largest end in (p, e] at
      which the closing `\b` holds, or None when none does. */
  function Backtrack(s: string, p: nat, e: nat): (r: Option<nat>)
    requires p <= e <= |s|
    ensures r.Some? ==> p < r.value <= e && IsBoundary(s, r.value)
    ensures r.Some? ==> forall k :: r.value < k <= e ==> !IsBoundary(s, k)
    ensures r.None? ==> forall k :: p < k <= e ==> !IsBoundary(s, k)
    decreases e
  {
    if e <= p then None
    else if IsBoundary(s, e) then Some(e)
    else Backtrack(s, p, e - 1)
  }

  /** One attempt of the pattern at exactly position p. It succeeds iff
      some token starts at p, and then it ends the longest such token. */
  function MatchAt(s: string, p: nat): (r: Option<nat>)
    requires p <= |s|
    ensures r.Some? ==> IsToken(s, p, r.value)
    ensures r.Some? ==> forall e: nat :: IsToken(s, p, e) ==> e <= r.value
    ensures r.None? ==> forall e: nat :: !IsToken(s, p, e)
  {
    if IsBoundary(s, p) then Backtrack(s, p, RunEnd(s, p)) else None
  }

  /** `wordRegex.exec(lineText)` with the given `lastIndex`: the leftmost
      token starting at or after lastIndex, the longest one there. */
  function Exec(s: string, lastIndex: nat): (r: Option<Span>)
    requires lastIndex <= |s|
    ensures r.Some? ==> lastIndex <= r.value.start && IsToken(s, r.value.start, r.value.end)
    ensures r.Some? ==> forall e: nat :: IsToken(s, r.value.start, e) ==> e <= r.value.end
    ensures r.Some? ==> forall q: nat, e: nat :: lastIndex <= q < r.value.start ==> !IsToken(s, q, e)
    ensures r.None? ==> forall q: nat, e: nat :: lastIndex <= q ==> !IsToken(s, q, e)
    decreases |s| - lastIndex
  {
    match MatchAt(s, lastIndex)
    case Some(e) => Some(Span(lastIndex, e))
    case None => if lastIndex == |s| then None else Exec(s, lastIndex + 1)
  }

  /** Every match the global regular expression yields from lastIndex on:
      each is a token, they come in increasing order and never overlap. */
  function TokensFrom(s: string, lastIndex: nat): (ts: seq<Span>)
    requires lastIndex <= |s|
    ensures forall i :: 0 <= i < |ts| ==> lastIndex <= ts[i].start && IsToken(s, ts[i].start, ts[i].end)
    ensures forall i, j :: 0 <= i < j < |ts| ==> ts[i].end <= ts[j].start
    decreases |s| - lastIndex
  {
    match Exec(s, lastIndex)
    case None => []
    case Some(sp) => [sp] + TokensFrom(s, sp.end)
  }

  /** The record one match contributes: none when it is short or accepted. */
  function RecordOf(s: string, lineNumber: int, spell: Option<Oracle>, sp: Span): (r: seq<MisspelledWord>)
    requires sp.start <= sp.end <= |s|
    ensures |r| <= 1
    ensures r == [] <==> sp.end - sp.start < 2 || IsCorrect(spell, s[sp.start..sp.end])
    ensures forall w :: w in r ==>
      w.word == s[sp.start..sp.end] && w.from == Position(lineNumber, sp.start) && w.to == Position(lineNumber, sp.end)
  {
    var word := s[sp.start..sp.end];
    if |word| >= 2 && !IsCorrect(spell, word)
    then [MisspelledWord(word, Position(lineNumber, sp.start), Position(lineNumber, sp.end))]
    else []
  }

  /** Records built from the matches ts that are at least two characters
      long and that the oracle does not accept, in match order. */
  function Misspellings(s: string, lineNumber: int, spell: Option<Oracle>, ts: seq<Span>): (ws: seq<MisspelledWord>)
    requires forall i :: 0 <= i < |ts| ==> IsToken(s, ts[i].start, ts[i].end)
    ensures |ws| <= |ts|
    decreases |ts|
  {
    if ts == [] then []
    else
      assert IsToken(s, ts[0].start, ts[0].end);
      RecordOf(s, lineNumber, spell, ts[0]) + Misspellings(s, lineNumber, spell, ts[1..])
  }

  /** What `findMisspelledWordsInLine(lineText, lineNumber)` returns. */
  function Scan(lineText: string, lineNumber: int, spell: Option<Oracle>): seq<MisspelledWord> {
    Misspellings(lineText, lineNumber, spell, TokensFrom(lineText, 0))
  }

  /** Records whose spans come strictly one after another along the line. */
  predicate Ordered(ws: seq<MisspelledWord>) {
    forall i, j :: 0 <= i < j < |ws| ==> ws[i].to.ch <= ws[j].from.ch
  }

  /** The scanner's loop: `exec` until it fails, skipping short matches
      and keeping the ones the oracle rejects. The closing sort by start
      column leaves the list as it is, since ScanIsOrdered shows it is
      already strictly ascending. */
  method FindMisspelledWordsInLine(lineText: string, lineNumber: int, spell: Option<Oracle>)
    returns (misspelled: seq<MisspelledWord>)
    ensures misspelled == Scan(lineText, lineNumber, spell)
  {
    misspelled := [];
    var lastIndex: nat := 0;
    ghost var all := Scan(lineText, lineNumber, spell);
    assert [] + all == all;
    while true
      invariant lastIndex <= |lineText|
      invariant misspelled + Misspellings(lineText, lineNumber, spell, TokensFrom(lineText, lastIndex)) == all
      decreases |lineText| - lastIndex
    {
      var m := Exec(lineText, lastIndex);
      if m.None? {
        ExecDone(lineText, lineNumber, spell, lastIndex, misspelled);
        break;
      }
      var sp := m.value;
      ExecStep(lineText, lineNumber, spell, lastIndex, misspelled);
      ghost var gathered := misspelled + RecordOf(lineText, lineNumber, spell, sp);
      lastIndex := sp.end;
      assert gathered + Misspellings(lineText, lineNumber, spell, TokensFrom(lineText, lastIndex)) == all;
      var word := lineText[sp.start..sp.end];
      if |word| < 2 {
        assert misspelled == gathered;
        continue;
      }
      if !IsCorrect(spell, word) {
        misspelled := misspelled + [MisspelledWord(word, Position(lineNumber, sp.start), Position(lineNumber, sp.end))];
      }
      assert misspelled == gathered;
    }
  }

  /** The scanner's loop ends when `exec` fails: nothing is left to gather. */
  lemma ExecDone(s: string, lineNumber: int, spell: Option<Oracle>, lastIndex: nat, gathered: seq<MisspelledWord>)
    requires lastIndex <= |s| && Exec(s, lastIndex).None?
    ensures gathered + Misspellings(s, lineNumber, spell, TokensFrom(s, lastIndex)) == gathered
  {
    assert TokensFrom(s, lastIndex) == [];
    assert gathered + [] == gathered;
  }

  /** One turn of the scanner's loop: a successful `exec` contributes its
      record to what was gathered so far, and the rest comes from where the
      match ended. */
  lemma ExecStep(s: string, lineNumber: int, spell: Option<Oracle>, lastIndex: nat, gathered: seq<MisspelledWord>)
    requires lastIndex <= |s| && Exec(s, lastIndex).Some?
    ensures var sp := Exec(s, lastIndex).value;
      sp.start < sp.end <= |s| &&
      gathered + Misspellings(s, lineNumber, spell, TokensFrom(s, lastIndex))
        == (gathered + RecordOf(s, lineNumber, spell, sp)) + Misspellings(s, lineNumber, spell, TokensFrom(s, sp.end))
  {
    var sp := Exec(s, lastIndex).value;
    var ts := TokensFrom(s, lastIndex);
    assert ts == [sp] + TokensFrom(s, sp.end);
    assert ts[1..] == TokensFrom(s, sp.end);
  }

  /** Every record comes from one of the matches, lies on the scanned line,
      is the text of its span, is at least two characters long and is
      rejected by the oracle. */
  lemma {:induction false} MisspellingsFidelity(s: string, lineNumber: int, spell: Option<Oracle>, ts: seq<Span>)
    requires forall i :: 0 <= i < |ts| ==> IsToken(s, ts[i].start, ts[i].end)
    ensures forall r :: r in Misspellings(s, lineNumber, spell, ts) ==>
      (exists i :: 0 <= i < |ts| && r.from.ch == ts[i].start && r.to.ch == ts[i].end) &&
      r.from.line == lineNumber && r.to.line == lineNumber &&
      0 <= r.from.ch && r.from.ch + 2 <= r.to.ch <= |s| &&
      r.word == s[r.from.ch..r.to.ch] && IsToken(s, r.from.ch, r.to.ch) &&
      !IsCorrect(spell, r.word)
    decreases |ts|
  {
    if ts != [] {
      MisspellingsFidelity(s, lineNumber, spell, ts[1..]);
      forall r | r in Misspellings(s, lineNumber, spell, ts[1..])
        ensures exists i :: 0 <= i < |ts| && r.from.ch == ts[i].start && r.to.ch == ts[i].end
      {
        var i :| 0 <= i < |ts[1..]| && r.from.ch == ts[1..][i].start && r.to.ch == ts[1..][i].end;
        assert ts[1..][i] == ts[i + 1];
      }
      assert IsToken(s, ts[0].start, ts[0].end);
    }
  }

  /** Span fidelity: every record lies on the scanned line, is the text of
      its own span, has at least two characters of [A-Za-z'], sits between
      two `\b` positions, and is rejected by the oracle. */
  lemma ScanSpanFidelity(lineText: string, lineNumber: int, spell: Option<Oracle>, r: MisspelledWord)
    requires r in Scan(lineText, lineNumber, spell)
    ensures r.from.line == lineNumber && r.to.line == lineNumber
    ensures 0 <= r.from.ch < r.to.ch <= |lineText|
    ensures r.word == lineText[r.from.ch..r.to.ch] && |r.word| == r.to.ch - r.from.ch >= 2
    ensures forall k :: 0 <= k < |r.word| ==> IsTokenChar(r.word[k])
    ensures IsBoundary(lineText, r.from.ch) && IsBoundary(lineText, r.to.ch)
    ensures !IsCorrect(spell, r.word)
  {
    MisspellingsFidelity(lineText, lineNumber, spell, TokensFrom(lineText, 0));
  }

  /** Records keep the order of the matches they come from. */
  lemma {:induction false} MisspellingsOrdered(s: string, lineNumber: int, spell: Option<Oracle>, ts: seq<Span>)
    requires forall i :: 0 <= i < |ts| ==> IsToken(s, ts[i].start, ts[i].end)
    requires forall i, j :: 0 <= i < j < |ts| ==> ts[i].end <= ts[j].start
    ensures Ordered(Misspellings(s, lineNumber, spell, ts))
    decreases |ts|
  {
    if ts != [] {
      assert IsToken(s, ts[0].start, ts[0].end);
      var head := RecordOf(s, lineNumber, spell, ts[0]);
      var rest := Misspellings(s, lineNumber, spell, ts[1..]);
      assert Misspellings(s, lineNumber, spell, ts) == head + rest;
      MisspellingsOrdered(s, lineNumber, spell, ts[1..]);
      MisspellingsFidelity(s, lineNumber, spell, ts[1..]);
      forall r | r in rest
        ensures ts[0].end <= r.from.ch
      {
        var i :| 0 <= i < |ts[1..]| && r.from.ch == ts[1..][i].start && r.to.ch == ts[1..][i].end;
        assert ts[1..][i] == ts[i + 1];
      }
      OrderedConcat(head, rest);
    }
  }

  /** Two ordered lists, the first ending before the second starts, make
      an ordered list. */
  lemma OrderedConcat(a: seq<MisspelledWord>, b: seq<MisspelledWord>)
    requires Ordered(a) && Ordered(b)
    requires forall x, y :: x in a && y in b ==> x.to.ch <= y.from.ch
    ensures Ordered(a + b)
  {
    forall i, j | 0 <= i < j < |a + b|
      ensures (a + b)[i].to.ch <= (a + b)[j].from.ch
    {
      if j < |a| {
      } else if i < |a| {
        assert a[i] in a && b[j - |a|] in b;
      } else {
        assert (a + b)[i] == b[i - |a|] && (a + b)[j] == b[j - |a|];
      }
    }
  }

  /** Order: the records come strictly ascending by start column, and
      each one ends at or before the next one starts. */
  lemma ScanIsOrdered(lineText: string, lineNumber: int, spell: Option<Oracle>)
    ensures Ordered(Scan(lineText, lineNumber, spell))
    ensures var ws := Scan(lineText, lineNumber, spell);
      forall i, j :: 0 <= i < j < |ws| ==> ws[i].from.ch < ws[j].from.ch
  {
    MisspellingsOrdered(lineText, lineNumber, spell, TokensFrom(lineText, 0));
    MisspellingsFidelity(lineText, lineNumber, spell, TokensFrom(lineText, 0));
    var ws := Scan(lineText, lineNumber, spell);
    forall i, j | 0 <= i < j < |ws|
      ensures ws[i].from.ch < ws[j].from.ch
    {
      assert ws[i] in ws;
    }
  }

  /** A match that adds no record: shorter than two characters, or
      accepted by the oracle. */
  predicate Silent(s: string, spell: Option<Oracle>, sp: Span)
    requires sp.start <= sp.end <= |s|
  {
    sp.end - sp.start < 2 || IsCorrect(spell, s[sp.start..sp.end])
  }

  /** Every one of the matches `ts` is silent. */
  predicate AllSilent(s: string, spell: Option<Oracle>, ts: seq<Span>) {
    forall i :: 0 <= i < |ts| && IsToken(s, ts[i].start, ts[i].end) ==> Silent(s, spell, ts[i])
  }

  /** Degenerate input: the records are empty exactly when every match is
      shorter than two characters or accepted by the oracle. */
  lemma {:induction false} MisspellingsEmpty(s: string, lineNumber: int, spell: Option<Oracle>, ts: seq<Span>)
    requires forall i :: 0 <= i < |ts| ==> IsToken(s, ts[i].start, ts[i].end)
    ensures Misspellings(s, lineNumber, spell, ts) == [] <==> AllSilent(s, spell, ts)
    decreases |ts|
  {
    if ts != [] {
      assert IsToken(s, ts[0].start, ts[0].end);
      var head := RecordOf(s, lineNumber, spell, ts[0]);
      var tl := ts[1..];
      var rest := Misspellings(s, lineNumber, spell, tl);
      assert Misspellings(s, lineNumber, spell, ts) == head + rest;
      MisspellingsEmpty(s, lineNumber, spell, tl);
      if head + rest == [] {
        assert head == [] && rest == [];
        forall i | 0 <= i < |ts|
          ensures Silent(s, spell, ts[i])
        {
          if i > 0 {
            assert ts[i] == tl[i - 1];
          }
        }
      } else if head == [] {
        var i :| 0 <= i < |tl| && !Silent(s, spell, tl[i]);
        assert ts[i + 1] == tl[i];
      } else {
        assert !Silent(s, spell, ts[0]);
      }
    }
  }

  /** An empty line has no misspellings; neither has a line whose every
      match is short or accepted. */
  lemma ScanEmpty(lineText: string, lineNumber: int, spell: Option<Oracle>)
    ensures lineText == "" ==> Scan(lineText, lineNumber, spell) == []
    ensures Scan(lineText, lineNumber, spell) == [] <==> AllSilent(lineText, spell, TokensFrom(lineText, 0))
  {
    var ts := TokensFrom(lineText, 0);
    MisspellingsEmpty(lineText, lineNumber, spell, ts);
    if lineText == "" {
      assert Exec(lineText, 0).None?;
      assert ts == [];
      assert Misspellings(lineText, lineNumber, spell, ts) == [];
    }
  }

  /** Re-scanning after a correction: a span whose text the oracle accepts
      is never reported, so a line where a span now holds an accepted
      suggestion has no record for that span. */
  lemma AcceptedSpanNotReported(lineText: string, lineNumber: int, spell: Option<Oracle>, from: nat, to: nat)
    requires from <= to <= |lineText|
    requires IsCorrect(spell, lineText[from..to])
    ensures forall r :: r in Scan(lineText, lineNumber, spell) ==> r.from.ch != from || r.to.ch != to
  {
    MisspellingsFidelity(lineText, lineNumber, spell, TokensFrom(lineText, 0));
  }
}
