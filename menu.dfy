/** The selection rules of the suggestion menu: the top ten suggestions,
    the number shown beside each slot, the keys that pick a slot or close
    the menu, and the newline-separated custom dictionary the "Add to
    dictionary" item appends to. */
module MenuRules {

  /** The menu shows at most this many suggestions. */
  const MaxSlots: nat := 10

  /** `suggestions.slice(0, 10)`: the first ten suggestions, in order. */
  function TopSuggestions(suggestions: seq<string>): (top: seq<string>)
    ensures |top| == if |suggestions| < MaxSlots then |suggestions| else MaxSlots
    ensures top == suggestions[..|top|]
  {
    if |suggestions| < MaxSlots then suggestions else suggestions[..MaxSlots]
  }

  /** The digit a number key selects: the slot index, where "0" stands for
      the tenth slot. */
  function KeyIndex(digit: nat): (index: nat)
    requires digit <= 9
    ensures index < MaxSlots
  {
    (if digit == 0 then 10 else digit) - 1
  }

  /** The number shown beside slot `index`: 1 to 9, then 0 for the tenth. */
  function SlotLabel(index: nat): (digit: nat)
    requires index < MaxSlots
    ensures digit <= 9
    ensures KeyIndex(digit) == index
  {
    if index == 9 then 0 else index + 1
  }

  /** Pressing the label of a slot selects that slot, and every digit is
      the label of exactly one slot. */
  lemma LabelsAndKeysAgree(digit: nat, index: nat)
    requires digit <= 9 && index < MaxSlots
    ensures SlotLabel(KeyIndex(digit)) == digit
    ensures SlotLabel(index) == digit <==> KeyIndex(digit) == index
  {
  }

  /** `/^[0-9]$/.test(key)`: the key is a single decimal digit. */
  predicate IsNumberKey(key: string) {
    |key| == 1 && '0' <= key[0] <= '9'
  }

  /** `parseInt(key)` on a single digit. */
  function DigitValue(key: string): (d: nat)
    requires IsNumberKey(key)
    ensures d <= 9
  {
    key[0] as int - '0' as int
  }

  /** The keys that move around the menu without closing it. */
  const NavigationKeys: seq<string> := ["ArrowUp", "ArrowDown", "ArrowLeft", "ArrowRight", "Enter", "Escape", "Tab"]

  /** What a key press does to an open menu. */
  datatype KeyAction =
    | Select(index: nat)  // apply the suggestion in this slot, then close the menu
    | Dismiss             // close the menu
    | Stay                // leave the menu open

  /** The menu's keydown handler, for `count` shown suggestions. */
  function KeyOutcome(key: string, numberKeysEnabled: bool, count: nat): (a: KeyAction)
    ensures a.Select? <==> IsNumberKey(key) && numberKeysEnabled && KeyIndex(DigitValue(key)) < count
    ensures a.Select? ==> a.index < count && a.index < MaxSlots && SlotLabel(a.index) == DigitValue(key)
    ensures a.Dismiss? <==> !(IsNumberKey(key) && numberKeysEnabled) && key !in NavigationKeys
  {
    if IsNumberKey(key) && numberKeysEnabled then
      var index := KeyIndex(DigitValue(key));
      if index < count then Select(index) else Stay
    else if key !in NavigationKeys then Dismiss
    else Stay
  }

  /** A digit key never closes the menu while number selection is on, even
      when its slot is empty; with number selection off it closes it. */
  lemma DigitKeys(key: string, count: nat)
    requires IsNumberKey(key)
    ensures !KeyOutcome(key, true, count).Dismiss?
    ensures KeyOutcome(key, false, count) == Dismiss
  {
    assert key !in NavigationKeys by {
      forall k | k in NavigationKeys
        ensures |k| != 1
      {
      }
    }
  }

  /** `s.split("\n")`: the pieces between newlines; never empty. */
  function Split(s: string): (parts: seq<string>)
    ensures |parts| >= 1
    ensures forall i :: 0 <= i < |parts| ==> '\n' !in parts[i]
  {
    if |s| == 0 then [""]
    else
      var rest := Split(s[1..]);
      if s[0] == '\n' then [""] + rest
      else [[s[0]] + rest[0]] + rest[1..]
  }

  /** `parts.join("\n")`. */
  function Join(parts: seq<string>): string {
    if |parts| == 0 then ""
    else if |parts| == 1 then parts[0]
    else parts[0] + "\n" + Join(parts[1..])
  }

  /** Putting a character in front of the first piece. */
  lemma {:induction false} JoinFront(c: char, parts: seq<string>)
    requires |parts| >= 1
    ensures Join([[c] + parts[0]] + parts[1..]) == [c] + Join(parts)
  {
    var ps := [[c] + parts[0]] + parts[1..];
    assert ps[0] == [c] + parts[0];
    assert ps[1..] == parts[1..];
    if |parts| > 1 {
      assert Join(ps) == ([c] + parts[0]) + "\n" + Join(parts[1..]);
      assert Join(parts) == parts[0] + "\n" + Join(parts[1..]);
    }
  }

  /** Splitting then joining gives the text back. */
  lemma {:induction false} JoinSplit(s: string)
    ensures Join(Split(s)) == s
  {
    if |s| > 0 {
      var rest := Split(s[1..]);
      JoinSplit(s[1..]);
      if s[0] == '\n' {
        assert ([""] + rest)[1..] == rest;
        assert s == "\n" + s[1..];
      } else {
        JoinFront(s[0], rest);
        assert s == [s[0]] + s[1..];
      }
    }
  }

  /** Splitting text that starts with a newline-free piece. */
  lemma {:induction false} SplitFront(a: string, t: string)
    requires '\n' !in a
    ensures Split(a + t) == [a + Split(t)[0]] + Split(t)[1..]
  {
    if |a| > 0 {
      SplitFront(a[1..], t);
      assert (a + t)[1..] == a[1..] + t;
      assert [a[0]] + (a[1..] + Split(t)[0]) == a + Split(t)[0];
    } else {
      var p := Split(t);
      assert a + t == t;
      assert a + p[0] == p[0];
      assert [p[0]] + p[1..] == p;
    }
  }

  /** Joining then splitting newline-free pieces gives the pieces back. */
  lemma {:induction false} SplitJoin(parts: seq<string>)
    requires |parts| >= 1
    requires forall i :: 0 <= i < |parts| ==> '\n' !in parts[i]
    ensures Split(Join(parts)) == parts
  {
    if |parts| == 1 {
      SplitFront(parts[0], "");
      assert Split("") == [""];
      assert parts[0] + "" == parts[0];
      assert [parts[0]] == parts;
    } else {
      SplitJoin(parts[1..]);
      var t := "\n" + Join(parts[1..]);
      SplitFront(parts[0], t);
      assert t[0] == '\n' && t[1..] == Join(parts[1..]);
      assert Split(t) == [""] + parts[1..];
      assert Join(parts) == parts[0] + t;
      assert Split(t)[0] == "" && Split(t)[1..] == parts[1..];
      assert parts[0] + "" == parts[0];
      assert [parts[0]] + parts[1..] == parts;
    }
  }

  /** The custom words stored in the settings text: none for the empty
      text, otherwise its newline-separated pieces. */
  function StoredWords(customDictionary: string): (words: seq<string>)
    ensures forall i :: 0 <= i < |words| ==> '\n' !in words[i]
  {
    if customDictionary == "" then [] else Split(customDictionary)
  }

  /** The settings text after "Add to dictionary" for `word`: unchanged
      when the word is already one of the stored words, otherwise the
      stored words with `word` appended, joined with newlines. */
  function AddWord(customDictionary: string, word: string): (r: string)
    ensures word in StoredWords(customDictionary) ==> r == customDictionary
  {
    var words := StoredWords(customDictionary);
    if word in words then customDictionary else Join(words + [word])
  }

  /** Adding a word stores exactly the old words plus that word, once. */
  lemma AddWordStores(customDictionary: string, word: string)
    requires word != "" && '\n' !in word
    ensures var old_ := StoredWords(customDictionary);
      StoredWords(AddWord(customDictionary, word)) == if word in old_ then old_ else old_ + [word]
  {
    var words := StoredWords(customDictionary);
    if word !in words {
      var parts := words + [word];
      assert forall i :: 0 <= i < |parts| ==> '\n' !in parts[i] by {
        forall i | 0 <= i < |parts|
          ensures '\n' !in parts[i]
        {
          if i < |words| { assert parts[i] == words[i]; }
        }
      }
      SplitJoin(parts);
      JoinNonEmpty(parts);
    }
  }

  /** The join of pieces whose last one is non-empty is non-empty. */
  lemma {:induction false} JoinNonEmpty(parts: seq<string>)
    requires |parts| >= 1 && parts[|parts| - 1] != ""
    ensures Join(parts) != ""
  {
    if |parts| > 1 {
      assert |Join(parts)| >= |parts[0] + "\n"|;
    }
  }

  /** Adding the same word twice stores the same text as adding it once,
      and the word is stored afterwards. */
  lemma AddWordIdempotent(customDictionary: string, word: string)
    requires word != "" && '\n' !in word
    ensures word in StoredWords(AddWord(customDictionary, word))
    ensures AddWord(AddWord(customDictionary, word), word) == AddWord(customDictionary, word)
  {
    AddWordStores(customDictionary, word);
    var words := StoredWords(customDictionary);
    if word !in words {
      assert (words + [word])[|words|] == word;
    }
  }
}
