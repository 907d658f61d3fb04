/** Text as it is wanted: its lines, before any of them is wrapped. */
module WantedText {
  import opened Wrappers
  import opened LineLayout
  import opened ShownText

  /** Where the text stands: on a line, at the start of one, or after a block, which a line
      with what is left of `prefix` is going to separate from what follows. */
  datatype Place = Within | Fresh | Parted(prefix: string)

  /** The text so far, the marker the next line starts with, if there is one, the breakable
      space asked for last, and the word being spelled. The word, and the space before it,
      are placed when the word ends. */
  datatype Draft = Draft(
    text: Page,
    place: Place,
    marker: Option<string>,
    space: Option<Attrs>,
    word: Rev<Cell>)

  const BLANK := Draft(Nil, Fresh, None, None, Nil)

  function NextStart(d: Draft, prefix: string): string {
    if d.marker.Some? then d.marker.value else prefix
  }

  /** On a line: a new one if need be, after a line with the trimmed prefix of the block that
      has ended, unless there is no text yet. */
  function LineOpened(d: Draft, prefix: string): Draft {
    if d.place.Within? then d
    else
      var text := if d.place.Parted? && d.text != Nil then Snoc(AddLeads(d.text, TrimEnd(d.place.prefix)), End)
                  else d.text;
      d.(text := AddLeads(text, NextStart(d, prefix)), place := Within, marker := None)
  }

  function LineClosed(d: Draft): Draft {
    if d.place.Within? then d.(text := Snoc(d.text, End), place := Fresh) else d
  }

  function BlockClosed(d: Draft, prefix: string): Draft {
    LineClosed(d).(place := Parted(prefix))
  }

  function AddWord(text: Page, word: Rev<Cell>): Page {
    match word
    case Nil => text
    case Snoc(init, cell) => Snoc(AddWord(text, init), Char(cell))
  }

  /** The word ends: on a line it follows the space asked for, else it starts a line. */
  function WordClosed(d: Draft, prefix: string): Draft {
    if d.word == Nil then d
    else
      var d1 := if !d.place.Within? then LineOpened(d, prefix)
                else if d.space.Some? then d.(text := Snoc(d.text, Gap(d.space.value, NextStart(d, prefix))))
                else d;
      d1.(text := AddWord(d1.text, d.word), space := None, word := Nil)
  }

  function SpaceAdded(d: Draft, attrs: Attrs, prefix: string): Draft {
    WordClosed(d, prefix).(space := Some(attrs))
  }

  function CharAdded(d: Draft, cell: Cell): Draft {
    d.(word := Snoc(d.word, cell))
  }

  /** A character of code, in its place at once; a newline ends a line, an empty one too. */
  function CodeAdded(d: Draft, cell: Cell, prefix: string): Draft {
    var d1 := LineOpened(d, prefix);
    if cell.c == '\n' then LineClosed(d1) else d1.(text := Snoc(d1.text, Char(cell)))
  }

  function MarkerSet(d: Draft, marker: string): Draft {
    d.(marker := Some(marker))
  }

  /** All of the text, once nothing follows. */
  function Whole(d: Draft, prefix: string): Page {
    LineClosed(WordClosed(d, prefix)).text
  }
}
