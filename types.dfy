/** Values shared by every part of the spell checker: editor positions,
    the misspelling records the scanner produces, and the dictionary
    oracle the checker consults. */
module Types {

  datatype Option<+T> = None | Some(value: T)

  /** An editor position: a line number and a column on that line. */
  datatype Position = Position(line: int, ch: int)

  /** One misspelled word found on a line: its text and the half-open
      column span [from, to) it occupies. */
  datatype MisspelledWord = MisspelledWord(word: string, from: Position, to: Position)

  /** The dictionary engine, kept abstract: `dictionary` says which words
      the loaded dictionary accepts, `suggestions` gives its ranked
      corrections, and `added` holds the words whitelisted during the
      session by `add`. */
  datatype Oracle = Oracle(dictionary: string -> bool, suggestions: string -> seq<string>, added: set<string>)
  {
    predicate Correct(word: string) {
      word in added || dictionary(word)
    }

    function Suggest(word: string): seq<string> {
      suggestions(word)
    }

    /** `spell.add(word)`: the word is accepted from now on. */
    function Add(word: string): (o: Oracle)
      ensures o.Correct(word)
      ensures forall w :: Correct(w) ==> o.Correct(w)
      ensures forall w :: o.Suggest(w) == Suggest(w)
    {
      Oracle(dictionary, suggestions, added + {word})
    }
  }

  /** `this.plugin.spell?.correct(word)`: with no oracle loaded the
      optional call yields undefined, which counts as "not correct". */
  predicate IsCorrect(spell: Option<Oracle>, word: string) {
    spell.Some? && spell.value.Correct(word)
  }

  /** `getSpellingSuggestions`: the oracle's suggestions, or none when no
      oracle is loaded. */
  function Suggestions(spell: Option<Oracle>, word: string): (s: seq<string>)
    ensures spell.None? ==> s == []
  {
    if spell.Some? then spell.value.Suggest(word) else []
  }
}
