/** The spell checker behind the plugin's commands: accept the top
    suggestion for the word nearest the cursor, accept the top suggestion
    for every misspelled word of the line, and open a suggestion menu that
    moves on to the next misspelled word each time it is opened again on
    the same line. */
module SpellChecking {
  import opened Types
  import opened WordScanner
  import opened PositionResolver
  import opened EditApplicator
  import opened MenuRules
  import opened Cycling
  import opened Host

  /** An open suggestion menu: the word it corrects and the suggestions
      shown in its numbered slots. */
  datatype Menu = Menu(target: MisspelledWord, top: seq<string>)

  /** A record whose span lies on one line and is not empty. */
  predicate WellFormedWord(w: MisspelledWord) {
    w.from.line == w.to.line && 0 <= w.from.ch < w.to.ch
  }

  /** Records with well-formed spans, strictly ascending by start column. */
  predicate WordList(ws: seq<MisspelledWord>) {
    (forall j :: 0 <= j < |ws| ==> WellFormedWord(ws[j])) &&
    (forall i, j :: 0 <= i < j < |ws| ==> ws[i].from.ch < ws[j].from.ch)
  }

  /** A menu built by the checker: a well-formed target and one to ten
      suggestions. */
  predicate MenuShape(m: Menu) {
    WellFormedWord(m.target) && 1 <= |m.top| <= MaxSlots
  }

  /** The scanner's records for a line form a word list whose spans hold
      their words on that line. */
  lemma ScanIsWordList(lineText: string, lineNumber: int, spell: Option<Oracle>)
    ensures var ws := Scan(lineText, lineNumber, spell);
      WordList(ws) && Matches(lineText, ws) && Ordered(ws) &&
      forall j :: 0 <= j < |ws| ==> ws[j].from.line == lineNumber
  {
    var ws := Scan(lineText, lineNumber, spell);
    ScanMatches(lineText, lineNumber, spell);
    ScanIsOrdered(lineText, lineNumber, spell);
    forall j | 0 <= j < |ws|
      ensures WellFormedWord(ws[j]) && ws[j].from.line == lineNumber
    {
      ScanSpanFidelity(lineText, lineNumber, spell, ws[j]);
    }
  }

  /** Same start and end columns; lines are not compared. */
  predicate SameSpan(a: MisspelledWord, b: MisspelledWord) {
    a.from.ch == b.from.ch && a.to.ch == b.to.ch
  }

  /** `words.findIndex(w => same span as target)`: the first position of a
      record with the target's span, or -1 when there is none. */
  function FindIndex(words: seq<MisspelledWord>, target: MisspelledWord): (r: int)
    ensures -1 <= r < |words|
    ensures r == -1 <==> forall j :: 0 <= j < |words| ==> !SameSpan(words[j], target)
    ensures r >= 0 ==> SameSpan(words[r], target) && forall j :: 0 <= j < r ==> !SameSpan(words[j], target)
  {
    if |words| == 0 then -1
    else if SameSpan(words[0], target) then 0
    else
      var r := FindIndex(words[1..], target);
      if r == -1 then -1 else r + 1
  }

  /** In a word list the search by span finds every record at its own
      position. */
  lemma FindIndexOfMember(words: seq<MisspelledWord>, i: nat)
    requires WordList(words) && i < |words|
    ensures FindIndex(words, words[i]) == i
  {
  }

  /** The menu `showSpellingSuggestionsMenu` leaves open for a word: none
      when the word has no suggestions, otherwise one showing its first
      ten suggestions. */
  function MenuFor(spell: Option<Oracle>, target: MisspelledWord): (m: Option<Menu>)
    ensures m.Some? <==> |Suggestions(spell, target.word)| > 0
    ensures m.Some? ==> m.value.target == target && m.value.top == TopSuggestions(Suggestions(spell, target.word))
  {
    var suggestions := Suggestions(spell, target.word);
    if |suggestions| == 0 then None else Some(Menu(target, TopSuggestions(suggestions)))
  }

  /** The scanner's records for a line, with the facts about them the
      edits need. */
  function LineWords(lineText: string, lineNumber: int, spell: Option<Oracle>): (ws: seq<MisspelledWord>)
    ensures ws == Scan(lineText, lineNumber, spell)
    ensures WordList(ws) && Matches(lineText, ws) && Ordered(ws)
    ensures forall j :: 0 <= j < |ws| ==> ws[j].from.line == lineNumber
  {
    ScanIsWordList(lineText, lineNumber, spell);
    Scan(lineText, lineNumber, spell)
  }

  /** `applySuggestion` (and the same steps in `acceptTopSuggestion`):
      replace the word's span by the suggestion, then put the cursor back,
      moved by the length difference when it was on the word's line right
      of the word's start. */
  method ApplySuggestion(editor: Editor, target: MisspelledWord, suggestion: string)
    requires editor.Valid() && target.from.line == target.to.line && target.from.ch <= target.to.ch
    modifies editor
    ensures editor.Valid()
    ensures editor.lines == ReplacedLines(old(editor.lines), target.from, target.to, suggestion)
    ensures editor.cursor == ClipPos(editor.lines, Position(old(editor.cursor).line, ShiftedColumn(old(editor.cursor), target, suggestion)))
  {
    var savedCursor := editor.cursor;
    editor.ReplaceRange(suggestion, target.from, target.to);
    if savedCursor.line == target.from.line && savedCursor.ch > target.from.ch {
      var lengthDiff := |suggestion| - |target.word|;
      editor.SetCursor(Position(savedCursor.line, savedCursor.ch + lengthDiff));
    } else {
      editor.SetCursor(savedCursor);
    }
  }

  /** The loop of `acceptAllTopSuggestions`: from the last word to the
      first, each word with a suggestion is replaced by its top suggestion,
      and the length difference is added up when the word starts left of
      the saved cursor column. */
  method ReplaceRightToLeft(editor: Editor, line: int, ws: seq<MisspelledWord>, spell: Option<Oracle>, savedCh: int)
    returns (totalLengthDiff: int)
    requires editor.Valid() && 0 <= line < |editor.lines|
    requires Matches(editor.lines[line], ws) && Ordered(ws)
    requires forall j :: 0 <= j < |ws| ==> ws[j].from.line == line && ws[j].to.line == line
    modifies editor
    ensures editor.Valid()
    ensures editor.lines == old(editor.lines)[line := BatchLine(old(editor.lines)[line], ws, spell, 0)]
    ensures totalLengthDiff == BatchDelta(ws, spell, savedCh, 0)
  {
    ghost var lines0 := editor.lines;
    ghost var lineText := editor.lines[line];
    totalLengthDiff := 0;
    var i := |ws| - 1;
    while i >= 0
      invariant -1 <= i < |ws|
      invariant editor.Valid()
      invariant editor.lines == lines0[line := BatchLine(lineText, ws, spell, i + 1)]
      invariant totalLengthDiff == BatchDelta(ws, spell, savedCh, i + 1)
    {
      var word := ws[i];
      var suggestions := Suggestions(spell, word.word);
      BatchStep(lineText, ws, spell, savedCh, i);

      if |suggestions| > 0 {
        var lengthDiff := |suggestions[0]| - |word.word|;
        ReplaceOnLine(lines0, line, BatchLine(lineText, ws, spell, i + 1), word.from, word.to, suggestions[0]);
        editor.ReplaceRange(suggestions[0], word.from, word.to);

        if savedCh > word.from.ch {
          totalLengthDiff := totalLengthDiff + lengthDiff;
        }
      }
      i := i - 1;
    }
  }

  /** The editor state `acceptAllTopSuggestions` leaves, given the state
      before it: with no misspelled word on the cursor's line nothing
      changes; otherwise that line becomes BatchLine and the cursor is set
      to its old column moved by BatchDelta. */
  predicate AllAccepted(lines: seq<string>, cursor: Position, spell: Option<Oracle>, lines': seq<string>, cursor': Position) {
    0 <= cursor.line < |lines| && |lines'| > 0 &&
    var lineText := lines[cursor.line];
    var ws := LineWords(lineText, cursor.line, spell);
    if |ws| == 0 then
      lines' == lines && cursor' == cursor
    else
      lines' == lines[cursor.line := BatchLine(lineText, ws, spell, 0)] &&
      cursor' == ClipPos(lines', Position(cursor.line, cursor.ch + BatchDelta(ws, spell, cursor.ch, 0)))
  }

  /** `acceptAllTopSuggestions` once a dictionary is loaded: scan the
      cursor's line; with no misspelled word nothing happens; otherwise
      save the cursor, run the batch loop, and set the cursor to its saved
      column moved by the total length difference. */
  method AcceptAllOnLine(editor: Editor, spell: Option<Oracle>)
    requires editor.Valid()
    modifies editor
    ensures editor.Valid()
    ensures AllAccepted(old(editor.lines), old(editor.cursor), spell, editor.lines, editor.cursor)
  {
    var cursor := editor.cursor;
    var currentLine := cursor.line;
    var lineText := editor.lines[currentLine];

    var misspelledWords := FindMisspelledWordsInLine(lineText, currentLine, spell);
    if |misspelledWords| == 0 {
      return;
    }
    ScanIsWordList(lineText, currentLine, spell);

    var savedCursor := editor.cursor;
    var totalLengthDiff := ReplaceRightToLeft(editor, currentLine, misspelledWords, spell, savedCursor.ch);
    editor.SetCursor(Position(savedCursor.line, savedCursor.ch + totalLengthDiff));
  }

  class SpellChecker {
    const plugin: Plugin
    var currentLineMisspelledWords: seq<MisspelledWord>
    var currentMisspelledIndex: int
    var lastLineChecked: int
    var currentMenu: Option<Menu>
    /** The handle of the last reset timer scheduled; `cleanup` cancels the
        timer but keeps the handle. */
    var cycleResetTimeout: Option<nat>
    /** The host's queue: the ids of the scheduled reset timers that have
        neither fired nor been cancelled. */
    var pendingTimers: set<nat>
    /** The id the host gives the next timer. */
    var nextTimerId: nat

    /** The active index is -1 or a position in the word list; at most one
        reset timer is pending, and it is the one the handle names. */
    predicate Valid()
      reads this
    {
      (currentMisspelledIndex == -1 || 0 <= currentMisspelledIndex < |currentLineMisspelledWords|) &&
      WordList(currentLineMisspelledWords) &&
      (forall t :: t in pendingTimers ==> cycleResetTimeout == Some(t) && t < nextTimerId) &&
      (currentMenu.Some? ==> MenuShape(currentMenu.value))
    }

    constructor (plugin: Plugin)
      ensures Valid() && this.plugin == plugin
      ensures currentLineMisspelledWords == [] && currentMisspelledIndex == -1 && lastLineChecked == -1
      ensures currentMenu == None && cycleResetTimeout == None && pendingTimers == {}
    {
      this.plugin := plugin;
      currentLineMisspelledWords := [];
      currentMisspelledIndex := -1;
      lastLineChecked := -1;
      currentMenu := None;
      cycleResetTimeout := None;
      pendingTimers := {};
      nextTimerId := 1;
    }

    /** `setTimeout`: a new timer is pending. */
    method SetTimeout() returns (id: nat)
      modifies this
      ensures id == old(nextTimerId) && nextTimerId == id + 1
      ensures pendingTimers == old(pendingTimers) + {id}
      ensures currentLineMisspelledWords == old(currentLineMisspelledWords)
      ensures currentMisspelledIndex == old(currentMisspelledIndex) && lastLineChecked == old(lastLineChecked)
      ensures currentMenu == old(currentMenu) && cycleResetTimeout == old(cycleResetTimeout)
    {
      id := nextTimerId;
      pendingTimers := pendingTimers + {id};
      nextTimerId := nextTimerId + 1;
    }

    /** `clearTimeout`: the timer is no longer pending. */
    method ClearTimeout(id: nat)
      modifies this
      ensures pendingTimers == old(pendingTimers) - {id}
      ensures currentLineMisspelledWords == old(currentLineMisspelledWords)
      ensures currentMisspelledIndex == old(currentMisspelledIndex) && lastLineChecked == old(lastLineChecked)
      ensures currentMenu == old(currentMenu) && cycleResetTimeout == old(cycleResetTimeout)
      ensures nextTimerId == old(nextTimerId)
    {
      pendingTimers := pendingTimers - {id};
    }

    /** `resetCyclingState`: forget the line's words, the active index and
        the checked line, and cancel the pending reset. */
    method ResetCyclingState()
      requires Valid()
      modifies this
      ensures Valid()
      ensures currentLineMisspelledWords == [] && currentMisspelledIndex == -1 && lastLineChecked == -1
      ensures cycleResetTimeout == None && pendingTimers == {}
      ensures currentMenu == old(currentMenu) && nextTimerId == old(nextTimerId)
    {
      currentLineMisspelledWords := [];
      currentMisspelledIndex := -1;
      lastLineChecked := -1;
      if cycleResetTimeout.Some? {
        ClearTimeout(cycleResetTimeout.value);
        cycleResetTimeout := None;
      }
    }

    /** `cleanup`: cancel the pending reset; the handle itself is kept. */
    method Cleanup()
      requires Valid()
      modifies this
      ensures Valid()
      ensures pendingTimers == {}
      ensures currentLineMisspelledWords == old(currentLineMisspelledWords)
      ensures currentMisspelledIndex == old(currentMisspelledIndex) && lastLineChecked == old(lastLineChecked)
      ensures currentMenu == old(currentMenu) && cycleResetTimeout == old(cycleResetTimeout)
      ensures nextTimerId == old(nextTimerId)
    {
      if cycleResetTimeout.Some? {
        ClearTimeout(cycleResetTimeout.value);
      }
    }

    /** The pending reset timer fires: its callback resets the cycling
        state. */
    method TimerFires(id: nat)
      requires Valid() && id in pendingTimers
      modifies this
      ensures Valid()
      ensures currentLineMisspelledWords == [] && currentMisspelledIndex == -1 && lastLineChecked == -1
      ensures cycleResetTimeout == None && pendingTimers == {}
      ensures currentMenu == old(currentMenu) && nextTimerId == old(nextTimerId)
    {
      pendingTimers := pendingTimers - {id};
      ResetCyclingState();
    }

    /** `showSpellingSuggestionsMenu`: close the open menu, then open one
        for the target word when it has suggestions. */
    method ShowSpellingSuggestionsMenu(target: MisspelledWord)
      requires Valid() && WellFormedWord(target)
      modifies this
      ensures Valid()
      ensures currentMenu == MenuFor(plugin.spell, target)
      ensures currentLineMisspelledWords == old(currentLineMisspelledWords)
      ensures currentMisspelledIndex == old(currentMisspelledIndex) && lastLineChecked == old(lastLineChecked)
      ensures cycleResetTimeout == old(cycleResetTimeout) && pendingTimers == old(pendingTimers)
      ensures nextTimerId == old(nextTimerId)
    {
      if currentMenu.Some? {
        // `hide()`; the menu's hide handler clears the field.
        currentMenu := None;
      }
      var suggestions := Suggestions(plugin.spell, target.word);
      if |suggestions| == 0 {
        return;
      }
      currentMenu := Some(Menu(target, TopSuggestions(suggestions)));
    }

    /** `openSpellingMenu`: rescan when the cursor is on another line than
        the one last checked; with no misspelled word, reset; otherwise
        make the word closest to the cursor active on a fresh scan, or the
        next word on a repeated call, restart the reset timer and open the
        menu for the active word. */
    method OpenSpellingMenu(editor: Editor)
      requires Valid() && editor.Valid()
      modifies this
      ensures Valid()
      ensures plugin.spell.None? ==>
        currentLineMisspelledWords == old(currentLineMisspelledWords) &&
        currentMisspelledIndex == old(currentMisspelledIndex) && lastLineChecked == old(lastLineChecked) &&
        currentMenu == old(currentMenu) && cycleResetTimeout == old(cycleResetTimeout) &&
        pendingTimers == old(pendingTimers) && nextTimerId == old(nextTimerId)
      ensures plugin.spell.Some? ==>
        var line := editor.cursor.line;
        var rescan := old(lastLineChecked) != line;
        var ws := if rescan then Scan(editor.lines[line], line, plugin.spell) else old(currentLineMisspelledWords);
        if |ws| == 0 then
          currentLineMisspelledWords == [] && currentMisspelledIndex == -1 && lastLineChecked == -1 &&
          cycleResetTimeout == None && pendingTimers == {} &&
          currentMenu == old(currentMenu) && nextTimerId == old(nextTimerId)
        else
          var index := if rescan || old(currentMisspelledIndex) == -1 then ClosestIndex(ws, editor.cursor.ch)
                       else NextIndex(old(currentMisspelledIndex), |ws|);
          currentLineMisspelledWords == ws && lastLineChecked == line && currentMisspelledIndex == index &&
          cycleResetTimeout == Some(old(nextTimerId)) && pendingTimers == {old(nextTimerId)} &&
          nextTimerId == old(nextTimerId) + 1 &&
          currentMenu == MenuFor(plugin.spell, ws[index])
    {
      if plugin.spell.None? {
        return;
      }
      var cursor := editor.cursor;
      var currentLine := cursor.line;

      if lastLineChecked != currentLine {
        RescanLine(editor.lines[currentLine], currentLine);
      }

      if |currentLineMisspelledWords| == 0 {
        ResetCyclingState();
        return;
      }

      ActivateWord(cursor);
      var targetWord := currentLineMisspelledWords[currentMisspelledIndex];
      RestartResetTimer();
      ShowSpellingSuggestionsMenu(targetWord);
    }

    /** The spelling-menu command invoked `m` more times on the line it
        last checked, with a word already active: each call moves the
        active word on by one, so the active index after the calls is
        Cycle of the starting index, and the word list stays the same. */
    method OpenSpellingMenuRepeatedly(editor: Editor, m: nat)
      requires Valid() && editor.Valid() && plugin.spell.Some?
      requires lastLineChecked == editor.cursor.line && currentMisspelledIndex >= 0
      modifies this
      ensures Valid() && currentMisspelledIndex >= 0
      ensures currentLineMisspelledWords == old(currentLineMisspelledWords) && lastLineChecked == old(lastLineChecked)
      ensures currentMisspelledIndex == Cycle(old(currentMisspelledIndex), |currentLineMisspelledWords|, m)
      ensures m > 0 ==> currentMenu == MenuFor(plugin.spell, currentLineMisspelledWords[currentMisspelledIndex])
    {
      ghost var k := currentMisspelledIndex;
      ghost var n := |currentLineMisspelledWords|;
      var j := 0;
      while j < m
        invariant 0 <= j <= m
        invariant Valid() && lastLineChecked == editor.cursor.line
        invariant currentLineMisspelledWords == old(currentLineMisspelledWords) && |currentLineMisspelledWords| == n
        invariant currentMisspelledIndex == Cycle(k, n, j)
        invariant j > 0 ==> currentMenu == MenuFor(plugin.spell, currentLineMisspelledWords[currentMisspelledIndex])
      {
        OpenSpellingMenu(editor);
        j := j + 1;
      }
    }

    /** The rescan at the start of `openSpellingMenu` on a new line: reset,
        then take the line's misspelled words, remember the line, and have
        no active word yet. */
    method RescanLine(lineText: string, line: int)
      requires Valid()
      modifies this
      ensures Valid()
      ensures currentLineMisspelledWords == Scan(lineText, line, plugin.spell)
      ensures currentMisspelledIndex == -1 && lastLineChecked == line
      ensures cycleResetTimeout == None && pendingTimers == {}
      ensures currentMenu == old(currentMenu) && nextTimerId == old(nextTimerId)
    {
      ResetCyclingState();
      currentLineMisspelledWords := FindMisspelledWordsInLine(lineText, line, plugin.spell);
      ScanIsWordList(lineText, line, plugin.spell);
      lastLineChecked := line;
      currentMisspelledIndex := -1;
    }

    /** The choice of the active word in `openSpellingMenu`: with none
        active yet, the word closest to the cursor (found again by its
        span); otherwise the next word, wrapping to the first. */
    method ActivateWord(cursor: Position)
      requires Valid() && |currentLineMisspelledWords| > 0
      modifies this
      ensures Valid()
      ensures currentMisspelledIndex ==
        if old(currentMisspelledIndex) == -1 then ClosestIndex(old(currentLineMisspelledWords), cursor.ch)
        else NextIndex(old(currentMisspelledIndex), |old(currentLineMisspelledWords)|)
      ensures currentLineMisspelledWords == old(currentLineMisspelledWords) && lastLineChecked == old(lastLineChecked)
      ensures currentMenu == old(currentMenu) && cycleResetTimeout == old(cycleResetTimeout)
      ensures pendingTimers == old(pendingTimers) && nextTimerId == old(nextTimerId)
    {
      if currentMisspelledIndex == -1 {
        var closestWord := FindClosestWord(currentLineMisspelledWords, cursor);
        // `if (!closestWord) return`: a non-empty list always has one.
        assert closestWord.Some?;
        FindIndexOfMember(currentLineMisspelledWords, ClosestIndex(currentLineMisspelledWords, cursor.ch));
        currentMisspelledIndex := FindIndex(currentLineMisspelledWords, closestWord.value);
      } else {
        currentMisspelledIndex := (currentMisspelledIndex + 1) % |currentLineMisspelledWords|;
      }
    }

    /** Cancel the pending reset, if any, and schedule a new one. */
    method RestartResetTimer()
      requires Valid()
      modifies this
      ensures Valid()
      ensures cycleResetTimeout == Some(old(nextTimerId)) && pendingTimers == {old(nextTimerId)}
      ensures nextTimerId == old(nextTimerId) + 1
      ensures currentLineMisspelledWords == old(currentLineMisspelledWords)
      ensures currentMisspelledIndex == old(currentMisspelledIndex) && lastLineChecked == old(lastLineChecked)
      ensures currentMenu == old(currentMenu)
    {
      if cycleResetTimeout.Some? {
        ClearTimeout(cycleResetTimeout.value);
      }
      var id := SetTimeout();
      cycleResetTimeout := Some(id);
    }

    /** `acceptTopSuggestion`: replace the misspelled word closest to the
        cursor by its top suggestion and keep the cursor in place. Nothing
        happens without a dictionary, without a misspelled word on the
        line, or when that word has no suggestion. */
    method AcceptTopSuggestion(editor: Editor)
      requires editor.Valid()
      modifies editor
      ensures editor.Valid()
      ensures var cursor := old(editor.cursor);
        var lineText := old(editor.lines)[cursor.line];
        var ws := LineWords(lineText, cursor.line, plugin.spell);
        if plugin.spell.None? || |ws| == 0 || |Suggestions(plugin.spell, ws[ClosestIndex(ws, cursor.ch)].word)| == 0 then
          editor.lines == old(editor.lines) && editor.cursor == cursor
        else
          var w := ws[ClosestIndex(ws, cursor.ch)];
          var s := Suggestions(plugin.spell, w.word)[0];
          editor.lines == old(editor.lines)[cursor.line := ReplaceSpan(lineText, w.from.ch, w.to.ch, s)] &&
          editor.cursor == ClipPos(editor.lines, Position(cursor.line, ShiftedColumn(cursor, w, s)))
    {
      if plugin.spell.None? {
        return;
      }
      var cursor := editor.cursor;
      var currentLine := cursor.line;
      var lineText := editor.lines[currentLine];

      var misspelledWords := FindMisspelledWordsInLine(lineText, currentLine, plugin.spell);
      if |misspelledWords| == 0 {
        return;
      }
      ScanIsWordList(lineText, currentLine, plugin.spell);

      var closestWord := FindClosestWord(misspelledWords, cursor);
      // `if (!closestWord) return`: a non-empty list always has one.
      assert closestWord.Some?;
      var w := closestWord.value;

      var suggestions := Suggestions(plugin.spell, w.word);
      if |suggestions| == 0 {
        return;
      }
      ReplaceInBounds(editor.lines, w.from, w.to, suggestions[0]);
      ApplySuggestion(editor, w, suggestions[0]);
    }

    /** `acceptAllTopSuggestions`: replace every misspelled word of the
        line that has a suggestion by its top suggestion, last word first,
        then move the cursor by the total length difference of the
        replaced words that start left of it. */
    method AcceptAllTopSuggestions(editor: Editor)
      requires editor.Valid()
      modifies editor
      ensures editor.Valid()
      ensures plugin.spell.None? ==> editor.lines == old(editor.lines) && editor.cursor == old(editor.cursor)
      ensures plugin.spell.Some? ==> AllAccepted(old(editor.lines), old(editor.cursor), plugin.spell, editor.lines, editor.cursor)
    {
      var spell := plugin.spell;
      if spell.None? {
        return;
      }
      AcceptAllOnLine(editor, spell);
    }

    /** A key pressed while the menu is open: a digit whose slot holds a
        suggestion applies it and closes the menu; any other key that is not
        a navigation key closes the menu. */
    method HandleMenuKey(editor: Editor, key: string)
      requires Valid() && editor.Valid() && currentMenu.Some?
      modifies this, editor
      ensures Valid() && editor.Valid()
      ensures var m := old(currentMenu).value;
        var a := KeyOutcome(key, plugin.enableNumberKeySelection, |m.top|);
        (a.Select? ==>
          currentMenu == None &&
          editor.lines == ReplacedLines(old(editor.lines), m.target.from, m.target.to, m.top[a.index]) &&
          editor.cursor == ClipPos(editor.lines, Position(old(editor.cursor).line, ShiftedColumn(old(editor.cursor), m.target, m.top[a.index])))) &&
        (a.Dismiss? ==> currentMenu == None && editor.lines == old(editor.lines) && editor.cursor == old(editor.cursor)) &&
        (a.Stay? ==> currentMenu == old(currentMenu) && editor.lines == old(editor.lines) && editor.cursor == old(editor.cursor))
      ensures currentLineMisspelledWords == old(currentLineMisspelledWords)
      ensures currentMisspelledIndex == old(currentMisspelledIndex) && lastLineChecked == old(lastLineChecked)
      ensures cycleResetTimeout == old(cycleResetTimeout) && pendingTimers == old(pendingTimers)
      ensures nextTimerId == old(nextTimerId)
    {
      var menu := currentMenu.value;
      var action := KeyOutcome(key, plugin.enableNumberKeySelection, |menu.top|);
      match action {
        case Select(index) =>
          ApplySuggestion(editor, menu.target, menu.top[index]);
          currentMenu := None;
        case Dismiss =>
          currentMenu := None;
        case Stay =>
      }
    }

    /** A click on the suggestion in slot `index`: it is applied, and the
        menu closes. */
    method ClickSuggestion(editor: Editor, index: nat)
      requires Valid() && editor.Valid() && currentMenu.Some? && index < |currentMenu.value.top|
      modifies this, editor
      ensures Valid() && editor.Valid() && currentMenu == None
      ensures var m := old(currentMenu).value;
        editor.lines == ReplacedLines(old(editor.lines), m.target.from, m.target.to, m.top[index]) &&
        editor.cursor == ClipPos(editor.lines, Position(old(editor.cursor).line, ShiftedColumn(old(editor.cursor), m.target, m.top[index])))
      ensures currentLineMisspelledWords == old(currentLineMisspelledWords)
      ensures currentMisspelledIndex == old(currentMisspelledIndex) && lastLineChecked == old(lastLineChecked)
      ensures cycleResetTimeout == old(cycleResetTimeout) && pendingTimers == old(pendingTimers)
      ensures nextTimerId == old(nextTimerId)
    {
      var menu := currentMenu.value;
      ApplySuggestion(editor, menu.target, menu.top[index]);
      currentMenu := None;
    }

    /** A click on "Add to dictionary": the dictionary accepts the word
        from now on, the word is appended to the custom word list unless it
        is already there, and the menu closes. */
    method ClickAddToDictionary()
      requires Valid() && currentMenu.Some?
      modifies this, plugin
      ensures Valid() && currentMenu == None
      ensures var word := old(currentMenu).value.target.word;
        plugin.spell == (if old(plugin.spell).Some? then Some(old(plugin.spell).value.Add(word)) else None) &&
        plugin.customDictionary == AddWord(old(plugin.customDictionary), word)
      ensures plugin.enableNumberKeySelection == old(plugin.enableNumberKeySelection)
      ensures currentLineMisspelledWords == old(currentLineMisspelledWords)
      ensures currentMisspelledIndex == old(currentMisspelledIndex) && lastLineChecked == old(lastLineChecked)
      ensures cycleResetTimeout == old(cycleResetTimeout) && pendingTimers == old(pendingTimers)
      ensures nextTimerId == old(nextTimerId)
    {
      var word := currentMenu.value.target.word;
      if plugin.spell.Some? {
        plugin.spell := Some(plugin.spell.value.Add(word));
      }
      var currentWords := StoredWords(plugin.customDictionary);
      if word !in currentWords {
        currentWords := currentWords + [word];
        plugin.customDictionary := Join(currentWords);
      }
      currentMenu := None;
    }
  }
}
