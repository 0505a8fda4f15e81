/** The parts of the host application the spell checker drives: the
    editor (its lines and its cursor) and the plugin object (the loaded
    dictionary and the saved settings). */
module Host {
  import opened Types
  import opened EditApplicator

  /** `x` brought into [lo, hi]. */
  function Clamp(x: int, lo: int, hi: int): (r: int)
    requires lo <= hi
    ensures lo <= r <= hi
    ensures lo <= x <= hi ==> r == x
    ensures x < lo ==> r == lo
    ensures hi < x ==> r == hi
  {
    if x < lo then lo else if hi < x then hi else x
  }

  /** The editor's clipping of a position to the document: the line into
      range, then the column onto that line. */
  function ClipPos(lines: seq<string>, p: Position): (q: Position)
    requires |lines| > 0
    ensures 0 <= q.line < |lines| && 0 <= q.ch <= |lines[q.line]|
    ensures 0 <= p.line < |lines| ==> q.line == p.line
    ensures 0 <= p.line < |lines| && 0 <= p.ch <= |lines[p.line]| ==> q == p
  {
    var l := Clamp(p.line, 0, |lines| - 1);
    Position(l, Clamp(p.ch, 0, |lines[l]|))
  }

  /** The document after the text between two positions of one line is
      replaced, both positions clipped first. */
  function ReplacedLines(lines: seq<string>, from: Position, to: Position, text: string): (r: seq<string>)
    requires |lines| > 0 && from.line == to.line && from.ch <= to.ch
    ensures |r| == |lines|
    ensures forall n :: 0 <= n < |lines| && n != ClipPos(lines, from).line ==> r[n] == lines[n]
  {
    var f := ClipPos(lines, from);
    var t := ClipPos(lines, to);
    lines[f.line := ReplaceSpan(lines[f.line], f.ch, t.ch, text)]
  }

  /** A Markdown editor: the document's lines and the cursor. */
  class Editor {
    var lines: seq<string>
    var cursor: Position

    /** The document has a line, and the cursor is on the document. */
    predicate Valid()
      reads this
    {
      |lines| > 0 && 0 <= cursor.line < |lines| && 0 <= cursor.ch <= |lines[cursor.line]|
    }

    constructor (text: seq<string>)
      requires |text| > 0
      ensures Valid() && lines == text && cursor == Position(0, 0)
    {
      lines := text;
      cursor := Position(0, 0);
    }

    /** `editor.replaceRange(text, from, to)` for a range on one line. The
        cursor keeps its position, clipped to the new text. */
    method ReplaceRange(text: string, from: Position, to: Position)
      requires Valid() && from.line == to.line && from.ch <= to.ch
      modifies this
      ensures Valid()
      ensures lines == ReplacedLines(old(lines), from, to, text)
      ensures cursor == ClipPos(lines, old(cursor))
    {
      lines := ReplacedLines(lines, from, to, text);
      cursor := ClipPos(lines, cursor);
    }

    /** `editor.setCursor(p)`: the cursor goes to `p`, clipped. */
    method SetCursor(p: Position)
      requires Valid()
      modifies this
      ensures Valid() && lines == old(lines)
      ensures cursor == ClipPos(lines, p)
    {
      cursor := ClipPos(lines, p);
    }
  }

  /** The plugin object the spell checker reads: `spell` (absent until a
      dictionary is loaded) and the two settings. */
  class Plugin {
    var spell: Option<Oracle>
    var customDictionary: string
    var enableNumberKeySelection: bool

    /** The default settings and no dictionary yet. */
    constructor ()
      ensures spell == None && customDictionary == "" && enableNumberKeySelection
    {
      spell := None;
      customDictionary := "";
      enableNumberKeySelection := true;
    }
  }

  /** ReplaceInBounds on a document whose line `l` has just been set to
      `text`. */
  lemma ReplaceOnLine(lines: seq<string>, l: int, text: string, from: Position, to: Position, s: string)
    requires 0 <= l < |lines| && from.line == l && to.line == l
    requires 0 <= from.ch <= to.ch <= |text|
    ensures ReplacedLines(lines[l := text], from, to, s) == lines[l := ReplaceSpan(text, from.ch, to.ch, s)]
  {
    ReplaceInBounds(lines[l := text], from, to, s);
    assert lines[l := text][l := ReplaceSpan(text, from.ch, to.ch, s)] == lines[l := ReplaceSpan(text, from.ch, to.ch, s)];
  }

  /** Replacing a span that lies on a line of the document needs no
      clipping: only that line changes, as ReplaceSpan says. */
  lemma ReplaceInBounds(lines: seq<string>, from: Position, to: Position, text: string)
    requires 0 <= from.line < |lines| && from.line == to.line
    requires 0 <= from.ch <= to.ch <= |lines[from.line]|
    ensures ReplacedLines(lines, from, to, text) == lines[from.line := ReplaceSpan(lines[from.line], from.ch, to.ch, text)]
  {
  }
}
