/** Text as a terminal shows it, and when that is the text that was wanted. */
module ShownText {
  import opened LineLayout

  /** A character of a line's prefix, a character of content, a breakable space, or a line
      end. A breakable space that is wanted knows the prefix of the line that starts if the
      current one ends in its place. */
  datatype Piece = Lead(c: char) | Char(cell: Cell) | Gap(attrs: Attrs, next: string) | End

  type Page = Rev<Piece>

  function Gaps(text: Page): nat {
    match text
    case Nil => 0
    case Snoc(init, p) => Gaps(init) + if p.Gap? then 1 else 0
  }

  function AddLeads(text: Page, s: string): (r: Page)
    ensures Gaps(r) == Gaps(text)
  {
    if s == "" then text else Snoc(AddLeads(text, s[..|s| - 1]), Lead(s[|s| - 1]))
  }

  predicate IsBlank(p: Piece) {
    match p
    case Lead(c) => c == ' '
    case Char(cell) => cell.c == ' '
    case Gap(_, _) => true
    case End => false
  }

  function AsShown(p: Piece): Piece {
    if p.Gap? then p.(next := "") else p
  }

  /** How a piece is shown; a prefix is shown plain. */
  function LooksOf(p: Piece): Attrs {
    match p
    case Char(cell) => cell.attrs
    case Gap(attrs, _) => attrs
    case _ => PLAIN
  }

  /** What follows a piece: something on the line, a line end, or a line end in front of which
      blanks with these attributes are missing. */
  datatype After = More | LineEnds | Missing(attrs: Attrs)

  /** Right before a line end, the last blank is missing, and with it those before it that are
      shown alike. */
  predicate Drops(after: After, p: Piece) {
    IsBlank(p) && (after.LineEnds? || (after.Missing? && after.attrs == LooksOf(p)))
  }

  /** What is shown is what is wanted, piece by piece, but for two things: a line may end,
      and the next one start with its prefix, in place of a breakable space; and the last
      blanks of a line are missing, as far as they are shown alike. */
  predicate Shows(shown: Page, wanted: Page, after: After)
    decreases Gaps(wanted), wanted
  {
    match wanted
    case Nil => shown == Nil
    case Snoc(init, p) =>
      || (!Drops(after, p) && shown.Snoc? && shown.last == AsShown(p)
          && Shows(shown.init, init, if p.End? then LineEnds else More))
      || (Drops(after, p) && Shows(shown, init, Missing(LooksOf(p))))
      || (p.Gap? && Shows(shown, AddLeads(Snoc(init, End), p.next), after))
  }

  /** Nothing more is missing where the last piece is no blank, or one shown differently. */
  lemma {:induction false} ShowsWhole(shown: Page, wanted: Page, after: After)
    requires Shows(shown, wanted, More) && (shown.Snoc? ==> !Drops(after, shown.last))
    ensures Shows(shown, wanted, after)
    decreases Gaps(wanted), wanted
  {
    if wanted.Snoc? && wanted.last.Gap? {
      var broken := AddLeads(Snoc(wanted.init, End), wanted.last.next);
      if Shows(shown, broken, More) {
        ShowsWhole(shown, broken, after);
      }
    }
  }

  lemma {:induction false} LeadsShow(shown: Page, wanted: Page, s: string)
    requires Shows(shown, wanted, More)
    ensures Shows(AddLeads(shown, s), AddLeads(wanted, s), More)
  {
    if s != "" {
      LeadsShow(shown, wanted, s[..|s| - 1]);
    }
  }

  /** Only nothing is shown as nothing. */
  lemma NothingShown(wanted: Page)
    requires wanted != Nil
    ensures !Shows(Nil, wanted, More)
  {
    if wanted.last.Gap? {
      var broken := AddLeads(Snoc(wanted.init, End), wanted.last.next);
      assert broken.Snoc? && !broken.last.Gap?;
    }
  }
}
