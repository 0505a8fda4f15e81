# Select Spell Check Menu — a verified model of the spell checker

This project models the `SpellChecker` class of the Obsidian plugin
"Select Spell Check Menu" in Dafny. The class is a spell-correction engine
for the line under the cursor, and the model covers its five parts.

- **Scanner.** `findMisspelledWordsInLine` tokenizes a line with the global
  regular expression `/\b[a-zA-Z']+\b/g`.
  - `\b` follows ECMAScript rules: its word characters are `[A-Za-z0-9_]`.
  - The `+` is greedy and backtracks.
  - `exec` resumes at `lastIndex`.

  The scanner drops matches shorter than two characters. It keeps the
  matches the dictionary rejects, as column spans `[from, to)`.
- **Resolver.** `findClosestWord` picks the word that holds the cursor, else
  the nearest word to its left, else the nearest word to its right.
- **Edits.**
  - `acceptTopSuggestion` and the menu's `applySuggestion` replace one word
    and shift the cursor by the length difference.
  - `acceptAllTopSuggestions` replaces every word from right to left. It
    then shifts the cursor by the total length difference of the words that
    start left of it.
- **Cycling.** `openSpellingMenu` and `resetCyclingState` keep the line's
  words, an active index, the last checked line and one pending reset
  timer. Opening the menu again on the same line moves the active index to
  `(index + 1) % count`.
- **Menu rules.**
  - The menu shows the top ten suggestions, labelled 1–9 and then 0.
  - Digit keys select a slot. A non-navigation key closes the menu.
  - "Add to dictionary" appends the word to the newline-separated custom
    word list, unless it is already there.

The dictionary engine is an abstract oracle (`Types.Oracle`):
- `dictionary` is an uninterpreted acceptance predicate.
- `suggestions` is an uninterpreted ranked suggestion function.
- `added` is the set of words added during the session.

Its absence (`plugin.spell` is null) is `None`, and every command is then a
no-op.

The editor is a class holding the document lines and the cursor
(`Host.Editor`). The plugin object is a class holding the oracle and the two
settings (`Host.Plugin`). The checker is a class whose fields are the
source's fields (`SpellChecking.SpellChecker`). The host's timer queue is
made explicit as `pendingTimers`, and a timer firing is the method
`TimerFires`.

Files:
- `types.dfy`: positions, records, the oracle.
- `scanner.dfy`: the regular expression and the scan loop.
- `resolver.dfy`: the closest-word rule.
- `edits.dfy`: single and batch replacement, and cursor arithmetic.
- `menu.dfy`: slots, keys and the custom word list.
- `cycling.dfy`: index rotation.
- `host.dfy`: the editor and the plugin object.
- `spellchecker.dfy`: the `SpellChecker` class.
- `samples.dfy`: worked examples.

## Model

| member | source | states |
|---|---|---|
| Types.Oracle.Add | src/spellChecker.ts:338-340 | after `spell.add(word)` the word is accepted, every word accepted before stays accepted, and suggestions are unchanged |
| Types.Suggestions | src/spellChecker.ts:255-260 | with no dictionary loaded there are no suggestions |
| Types.IsCorrect | src/spellChecker.ts:199 | `this.plugin.spell?.correct(word)`: no word is correct without a dictionary; otherwise the oracle decides (AcceptedSpanNotReported and MisspellingsFidelity use it) |
| WordScanner.RunEnd | src/spellChecker.ts:191 | the greedy `[a-zA-Z']+` run from p: every character up to the end is in the class, and the character at the end is not |
| WordScanner.Backtrack | src/spellChecker.ts:191 | backtracking finds the largest end at which the closing `\b` holds, or reports that none does |
| WordScanner.MatchAt | src/spellChecker.ts:191 | one attempt at position p succeeds exactly when a token starts there, and then ends the longest one |
| WordScanner.Exec | src/spellChecker.ts:191-194 | `exec` from `lastIndex` returns the leftmost token at or after `lastIndex`, the longest one there; None means no token starts at or after `lastIndex` |
| WordScanner.TokensFrom | src/spellChecker.ts:191-194 | the matches of the global regular expression are tokens, in increasing order, without overlap |
| WordScanner.FindMisspelledWordsInLine | src/spellChecker.ts:185-210 | the loop gathers exactly the scan's records, so the closing sort is the identity |
| WordScanner.ExecStep | src/spellChecker.ts:194-205 | one loop turn adds the record of the current match (none when it is short or accepted), and the rest comes from the match end |
| WordScanner.RecordOf | src/spellChecker.ts:195-205 | what one match adds to the list: at most one record; none exactly when its text is shorter than two characters or the oracle accepts it; the record holds the match's text and its span on the scanned line |
| WordScanner.Misspellings | src/spellChecker.ts:194-206 | the records of the matches in match order, at most one per match; its meaning is stated by MisspellingsFidelity, MisspellingsOrdered and MisspellingsEmpty |
| WordScanner.Scan | src/spellChecker.ts:185-210 | the list `findMisspelledWordsInLine` returns: the records of every match from column 0; its meaning is stated by ScanSpanFidelity, ScanIsOrdered and ScanEmpty, and FindMisspelledWordsInLine computes it |
| WordScanner.MisspellingsFidelity | src/spellChecker.ts:195-205 | every record comes from a match, lies on the scanned line, is its span's text, has at least two characters and is rejected by the oracle |
| WordScanner.ScanSpanFidelity | src/spellChecker.ts:191-205 | every record: both positions on `lineNumber`; `word == lineText[from..to)` with `to - from == \|word\| >= 2`; only `[A-Za-z']`; `\b` at both ends; not correct |
| WordScanner.MisspellingsOrdered | src/spellChecker.ts:194-206 | records keep match order: each ends at or before the next one starts |
| WordScanner.ScanIsOrdered | src/spellChecker.ts:194-209 | the scan is strictly ascending by `from.ch`, and spans do not overlap |
| WordScanner.MisspellingsEmpty | src/spellChecker.ts:197-199 | no records exactly when every match is short or accepted |
| WordScanner.ScanEmpty | src/spellChecker.ts:191-209 | an empty line gives no records; a line gives none iff every match is short or accepted |
| WordScanner.AcceptedSpanNotReported | src/spellChecker.ts:199 | a span whose text the oracle accepts is never reported |
| PositionResolver.EveryWordPlaced | src/spellChecker.ts:218-250 | a word that does not hold the cursor ends at or before it or starts after it |
| PositionResolver.FirstHoldingExists | src/spellChecker.ts:218-222 | if some word holds the cursor, a first such word exists |
| PositionResolver.NearestLeftExists | src/spellChecker.ts:224-235 | if some word lies left of the cursor, a nearest one exists, the first among equals |
| PositionResolver.NearestRightExists | src/spellChecker.ts:239-250 | if some word lies right of the cursor, a nearest one exists, the first among equals |
| PositionResolver.ClosestExists | src/spellChecker.ts:216-252 | a non-empty list always has a closest word, so the `words[0]` fallback is never needed |
| PositionResolver.ClosestUnique | src/spellChecker.ts:216-252 | the closest-word rule names one word only |
| PositionResolver.ClosestIndex | src/spellChecker.ts:212-253 | for a non-empty list, the index the rule picks |
| PositionResolver.FindClosestWord | src/spellChecker.ts:212-253 | null exactly for an empty list; otherwise the first word holding the cursor (both ends inclusive), else the nearest left word, else the nearest right word, first among equals; only columns are compared |
| EditApplicator.ReplaceSpan | src/spellChecker.ts:282-286 | `replaceRange` on one line keeps the prefix before `from`, puts the text in, and keeps the suffix from `to` |
| EditApplicator.ReplaceSpanUndo | src/spellChecker.ts:282-286 | writing the old text back over the replacement restores the line |
| EditApplicator.ShiftedColumn | src/spellChecker.ts:71-83 | the column `setCursor` gets after one replacement: shifted by `\|replacement\| - \|word\|` when the saved cursor is on the word's line right of its start, else kept; ShiftKeepsPlace and ShiftFromInsideWord state what it means for the text around the cursor |
| EditApplicator.ShiftKeepsPlace | src/spellChecker.ts:71-83 | a cursor left of the word keeps its text before it; a cursor right of the word keeps its text after it and has the corrected text before it; on another line the column is kept |
| EditApplicator.ShiftFromInsideWord | src/spellChecker.ts:71-83 | nothing clamps the shift: a cursor inside a word with a shorter replacement can land below column 0 |
| EditApplicator.ScanMatches | src/spellChecker.ts:191-209 | the scan's spans lie on the line and hold their words, in order |
| EditApplicator.BatchLine | src/spellChecker.ts:105-118 | after the loop has handled words `i..`, the text before word `i` is still the original, so every span still waiting is valid |
| EditApplicator.BatchStep | src/spellChecker.ts:105-118 | one loop turn replaces word `i` on the line the later turns left, only when it has a suggestion, and adds its length difference to the total only when it also starts left of the saved cursor column |
| EditApplicator.Replacement | src/spellChecker.ts:109-114 | the text a word is replaced with: its first suggestion, or the word itself when it has none |
| EditApplicator.BatchDelta | src/spellChecker.ts:106-118 | `totalLengthDiff` after the loop has handled words `i..`; BatchDeltaIsLeftSum and BatchDeltaZero state its value, and ReplaceRightToLeft computes it |
| EditApplicator.BatchIsSplice | src/spellChecker.ts:105-118 | right-to-left replacement equals reading the original line left to right with every span replaced |
| EditApplicator.SpliceSplit | src/spellChecker.ts:105-125 | the corrected line splits at a cut between spans into the corrected text before the cut and the corrected text after it |
| EditApplicator.SpliceLength | src/spellChecker.ts:110-117 | the corrected stretch is as long as the original plus the length differences of its replaced words |
| EditApplicator.BatchDeltaIsLeftSum | src/spellChecker.ts:108-120 | `totalLengthDiff` is the sum of the length differences of the replaced words left of the cursor |
| EditApplicator.BatchDeltaZero | src/spellChecker.ts:116-118 | words starting at or right of the cursor add nothing to `totalLengthDiff` |
| EditApplicator.BatchCursorKeepsPlace | src/spellChecker.ts:105-125 | with the cursor between spans, the new column splits the corrected line into the corrected text left of the old cursor and the corrected text right of it |
| MenuRules.TopSuggestions | src/spellChecker.ts:304 | the first ten suggestions, in order (all of them when there are fewer) |
| MenuRules.KeyIndex | src/spellChecker.ts:374-375 | the slot a digit key selects is always one of the ten slots, and SlotLabel is its inverse (LabelsAndKeysAgree) |
| MenuRules.IsNumberKey | src/spellChecker.ts:368 | `/^[0-9]$/.test(key)`: a single decimal digit; KeyOutcome and DigitKeys use it, with the seven navigation keys of lines 358-366 as the constant `NavigationKeys` |
| MenuRules.DigitValue | src/spellChecker.ts:374 | `parseInt` of a number key is a digit 0–9 |
| MenuRules.SlotLabel | src/spellChecker.ts:307 | slot labels are digits, and the key of a slot's label selects that slot |
| MenuRules.LabelsAndKeysAgree | src/spellChecker.ts:374-375 | labels and digit keys are inverse: each digit labels exactly the slot it selects |
| MenuRules.KeyOutcome | src/spellChecker.ts:357-384 | a digit with number selection on selects slot `(d == 0 ? 10 : d) - 1` exactly when that slot exists; a key that is not a selecting digit and not a navigation key closes the menu; otherwise the menu stays open |
| MenuRules.DigitKeys | src/spellChecker.ts:368-383 | a digit never closes the menu while number selection is on, even for an empty slot; with it off, a digit closes the menu |
| MenuRules.Split | src/spellChecker.ts:343 | `split("\n")` gives at least one piece, and no piece contains a newline |
| MenuRules.Join | src/spellChecker.ts:349 | `join("\n")`; JoinSplit and SplitJoin make it the inverse of Split |
| MenuRules.StoredWords | src/spellChecker.ts:342-344 | the stored custom words: none for the empty text, else the newline-separated pieces, none of which contains a newline |
| MenuRules.JoinSplit | src/spellChecker.ts:343-349 | joining the split pieces gives the text back |
| MenuRules.SplitJoin | src/spellChecker.ts:343-349 | splitting the join of newline-free pieces gives the pieces back |
| MenuRules.AddWord | src/spellChecker.ts:342-351 | an already stored word leaves the settings text unchanged |
| MenuRules.AddWordStores | src/spellChecker.ts:342-351 | after adding, the stored words are the old ones, plus the word at the end when it was absent |
| MenuRules.AddWordIdempotent | src/spellChecker.ts:342-351 | the word is stored afterwards, and adding it twice stores the same text as adding it once |
| Cycling.NextIndex | src/spellChecker.ts:166-170 | the next index stays in range and wraps from the last word to the first |
| Cycling.Cycle | src/spellChecker.ts:166-170 | the active index after `m` further openings from `k` stays in range; CycleClosedForm and CycleVisitsAll state its value, and OpenSpellingMenuRepeatedly shows that `m` calls of OpenSpellingMenu reach it |
| Cycling.CycleClosedForm | src/spellChecker.ts:166-170 | within one round the index counts up to the end and continues from the front; after a full round it is back where it started |
| Cycling.CycleVisitsAll | src/spellChecker.ts:166-170 | N successive steps of the rotation visit all N words once each, and the next one returns to the first; by OpenSpellingMenuRepeatedly this holds for N successive calls of OpenSpellingMenu on the same line |
| Host.ClipPos | src/spellChecker.ts:75-82 | the editor's clipping puts a position on the document and leaves a position already on it unchanged |
| Host.ReplacedLines | src/spellChecker.ts:282-286 | replacing a range on one line changes no other line |
| Host.Editor.ReplaceRange | src/spellChecker.ts:282-286 | the document after `replaceRange` on one line; the cursor keeps its position, clipped |
| Host.Editor.SetCursor | src/spellChecker.ts:294-301 | the cursor goes to the clipped position, and the text is unchanged |
| Host.Plugin.constructor | src/settings.ts:9-12 | the default settings are an empty custom word list with number selection on; no dictionary is loaded yet |
| Host.ReplaceInBounds | src/spellChecker.ts:70 | a range that lies on the line needs no clipping |
| SpellChecking.ScanIsWordList | src/spellChecker.ts:191-209 | the scan's records are well formed, strictly ascending, on the scanned line, and hold their words |
| SpellChecking.FindIndex | src/spellChecker.ts:163-168 | `findIndex` by span: -1 exactly when no record has the span; otherwise the first record with it |
| SpellChecking.FindIndexOfMember | src/spellChecker.ts:163-168 | in a strictly ascending list, the search by span finds each record at its own index |
| SpellChecking.MenuFor | src/spellChecker.ts:272-304 | a menu opens exactly when the word has suggestions, and it shows that word's first ten |
| SpellChecking.ApplySuggestion | src/spellChecker.ts:281-302 | the span is replaced; the cursor moves by `\|suggestion\| - \|word\|` when it was on the word's line right of its start, and otherwise goes back where it was |
| SpellChecking.ReplaceRightToLeft | src/spellChecker.ts:105-120 | the descending loop leaves the line as BatchLine says, and `totalLengthDiff` as BatchDelta says |
| SpellChecking.AllAccepted | src/spellChecker.ts:93-125 | the state after accepting all top suggestions: unchanged when the cursor line has no misspelled word; otherwise only that line changes, to BatchLine, and the cursor goes to column `saved.ch + BatchDelta`, clipped; SampleAcceptAll instantiates it |
| SpellChecking.SpellChecker.constructor | src/spellChecker.ts:11-20 | no words, index -1, no line checked, no menu, no timer |
| SpellChecking.SpellChecker.ResetCyclingState | src/spellChecker.ts:22-30 | the list is empty, the index and the last line are -1, the handle is null and no timer is pending; the menu is untouched |
| SpellChecking.SpellChecker.Cleanup | src/spellChecker.ts:32-36 | no timer is pending afterwards; the handle and all other state are kept |
| SpellChecking.SpellChecker.SetTimeout | src/spellChecker.ts:178-180 | `setTimeout`: a fresh id is added to the pending timers and the counter moves on; nothing else changes |
| SpellChecking.SpellChecker.ClearTimeout | src/spellChecker.ts:176 | `clearTimeout(id)`: that timer is no longer pending; nothing else changes |
| SpellChecking.SpellChecker.TimerFires | src/spellChecker.ts:178-180 | the reset timer's callback resets the cycling state |
| SpellChecking.SpellChecker.ShowSpellingSuggestionsMenu | src/spellChecker.ts:262-279 | the old menu closes; the new menu is MenuFor the target; the cycling state is untouched |
| SpellChecking.SpellChecker.OpenSpellingMenu | src/spellChecker.ts:128-183 | covers rescans, reset, the active index, the timer and the menu (details below) |
| SpellChecking.SpellChecker.RescanLine | src/spellChecker.ts:137-146 | after the reset, the list is the scan of the cursor line, the line is remembered, and the index is -1 |
| SpellChecking.SpellChecker.ActivateWord | src/spellChecker.ts:153-170 | index -1 becomes ClosestIndex; any other index becomes NextIndex |
| SpellChecking.SpellChecker.OpenSpellingMenuRepeatedly | src/spellChecker.ts:153-170 | `m` calls of OpenSpellingMenu on the line already checked leave the word list alone and move the index to `Cycle(k, n, m)`; after at least one call the menu is MenuFor the active word |
| SpellChecking.SpellChecker.RestartResetTimer | src/spellChecker.ts:175-180 | the old timer is cancelled and exactly one new timer is pending, named by the handle |
| SpellChecking.SpellChecker.AcceptTopSuggestion | src/spellChecker.ts:38-84 | no-op without a dictionary, a misspelled word or a suggestion; otherwise the closest word's span gets its top suggestion and the cursor is set to the shifted column |
| SpellChecking.AcceptAllOnLine | src/spellChecker.ts:93-125 | the steps after the dictionary check produce the state AllAccepted describes: nothing changes without a misspelled word on the cursor's line; otherwise that line becomes BatchLine and the cursor is set to column `saved.ch + BatchDelta`, clipped |
| SpellChecking.SpellChecker.AcceptAllTopSuggestions | src/spellChecker.ts:86-126 | no-op without a dictionary; otherwise the editor ends in the state AllAccepted describes |
| SpellChecking.SpellChecker.HandleMenuKey | src/spellChecker.ts:357-384 | acts as KeyOutcome says: select applies that slot's suggestion and closes the menu; dismiss only closes it; stay changes nothing |
| SpellChecking.SpellChecker.ClickSuggestion | src/spellChecker.ts:309-311 | clicking a slot applies its suggestion |
| SpellChecking.SpellChecker.ClickAddToDictionary | src/spellChecker.ts:337-351 | the oracle accepts the word from now on, and the settings text becomes AddWord of the old text and the word |
| Samples.QuotesDropped | src/spellChecker.ts:191 | `'hello'` matches only `hello` |
| Samples.DigitBlocks | src/spellChecker.ts:191 | `abc1` gives no match |
| Samples.InnerApostropheKept | src/spellChecker.ts:191 | `don't` matches as a whole |
| Samples.SampleTokens | src/spellChecker.ts:191-194 | the matches of "Helo wrold" are [0,4) and [5,10) |
| Samples.SampleScan | src/spellChecker.ts:185-210 | "Helo wrold" reports "Helo" at [0,4) and "wrold" at [5,10) |
| Samples.SampleClosest | src/spellChecker.ts:218-222 | a cursor at a word's end column, or inside a word, picks that word |
| Samples.SampleBatch | src/spellChecker.ts:105-125 | the two words of "Helo wrold" become "Hello world", and cursor column 10 becomes 11 |
| Samples.SampleAcceptAll | src/spellChecker.ts:86-126 | AllAccepted relates the document "Helo wrold" with the cursor at column 10 to "Hello world" with the cursor at column 11 |

`SpellChecking.SpellChecker.OpenSpellingMenu` in detail:
- It does nothing without a dictionary.
- It rescans only when the cursor line differs from the last checked line.
- If the word list is then empty, it resets the state and leaves the menu as it was.
- Otherwise, a fresh scan (or index -1) makes the word closest to the
  cursor active. A repeated call advances the index with NextIndex.
- After a non-empty call, the index is in range and exactly one reset
  timer is pending.
- The menu is then MenuFor the active word.

Every method of the `SpellChecker` class also keeps `Valid()`, except the
timer primitives `SetTimeout` and `ClearTimeout`, which stand for the host's
functions: they neither need nor keep it, and `SetTimeout` alone breaks it
by adding a second pending timer. They are called only inside
`RestartResetTimer`, `ResetCyclingState` and `Cleanup`, which keep `Valid()`:
- the index is -1 or in range;
- the words are well formed and strictly ascending;
- at most one reset timer is pending, and the handle names it;
- an open menu shows one to ten suggestions.

## Left out

- Menu rendering and screen placement are left out. This covers building the
  `Menu` widget, the DOM elements of each slot and the number label, the
  separator, and placing the menu with `coordsAtPos` or at the (100, 100)
  fallback (src/spellChecker.ts:305-333, 393-431). An open menu is modelled
  only as its target word and its shown suggestions.
- The `keydown` listener is not modelled as a DOM registration. It is
  modelled as live exactly while a menu is open (src/spellChecker.ts:386-391),
  so `HandleMenuKey` requires an open menu. `preventDefault` and
  `stopPropagation` are left out.
- `SpellChecking.SpellChecker.ClickSuggestion` and `ClickAddToDictionary`
  close the menu after a click. This is the host menu's own behaviour on
  a click; the source does not write it.
- `Notice` messages, `console.error` and the awaited `saveSettings()` are
  left out: they are user-interface or storage I/O. The settings text is
  updated in memory only.
- Real time is left out. `setTimeout` and `clearTimeout` become a set of
  pending timer ids and an id counter, and the 1000 ms delay is not
  modelled. A timer firing is a call of `TimerFires`.
- The nspell algorithm is left out. `correct` and `suggest` are
  uninterpreted functions. `add` puts the word in a set of accepted words,
  and in the model it does not change the suggestions.
- Columns count characters. The source counts UTF-16 code units, so
  characters outside the Basic Multilingual Plane are not modelled.
- The editor is an assumption about the host, not a model of CodeMirror:
  - `setCursor` and `replaceRange` clip positions onto the document
    (`Host.ClipPos`).
  - After `replaceRange` the cursor keeps its position, clipped. CodeMirror's
    mapping of the cursor through the change is not modelled. Every caller
    sets the cursor right after the edit.
  - Ranges spanning several lines are not modelled: every range the checker
    passes lies on one line.
- `EditApplicator.ShiftedColumn` and `SpellChecking.SpellChecker.AcceptAllTopSuggestions`
  compute the column exactly as the source does, with no clamping. Any
  clamping comes from the host's `setCursor`.
- `PositionResolver.FindClosestWord` never reaches `rightWord || words[0]`
  with `rightWord` null: it asserts that a right word was found.
  `openSpellingMenu` and `acceptTopSuggestion` likewise assert instead of
  taking `if (!closestWord) return`. Both branches are proved unreachable
  (`PositionResolver.ClosestExists`).
- The `sort` at the end of `findMisspelledWordsInLine` is not performed. The
  list is already strictly ascending by start column
  (`WordScanner.ScanIsOrdered`), so the stable sort leaves it unchanged.
- The scanner's `this.plugin.spell?.correct(word)` with a null `spell` is
  modelled (no word counts as correct). Every caller returns earlier when
  `spell` is null.
- `SpellChecking.SpellChecker.OpenSpellingMenu`,
  `AcceptTopSuggestion` and `AcceptAllTopSuggestions` take only the
  editor. The `view` parameter is unused by the modelled logic. The
  closures of the menu become methods that take the same editor.
- `SpellChecking.SpellChecker.OpenSpellingMenu`'s body is split into
  `RescanLine`, `ActivateWord` and `RestartResetTimer`, and the part of
  `acceptAllTopSuggestions` after the dictionary check is `AcceptAllOnLine`,
  whose loop is `ReplaceRightToLeft`. Both keep the source's
  steps in the source's order.
- The following are left out as plugin lifecycle, I/O or settings-tab UI:
  - main.ts: the plugin lifecycle, command registration (main.ts:23-47),
    building nspell from `.aff`/`.dic` files, loading custom words
    (main.ts:68-104), and loading settings.
  - The `editor-change` hook (main.ts:49-53). It calls `resetCyclingState`,
    which is modelled as `ResetCyclingState`.
  - `onunload` (main.ts:106-108). It calls `cleanup`, which is modelled as
    `Cleanup`.
  - src/dictionaryManager.ts.
  - The settings tab in src/settings.ts.
