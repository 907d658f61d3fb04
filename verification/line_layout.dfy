/** The help text line writer as functions on its state, one character at a time. */
module LineLayout {
  import opened Wrappers
  import opened CharClasses

  /** A list that grows at its end, as output does. */
  datatype Rev<+T> = Nil | Snoc(init: Rev<T>, last: T)

  function FromSeq<T>(s: seq<T>): Rev<T> {
    if s == [] then Nil else Snoc(FromSeq(s[..|s| - 1]), s[|s| - 1])
  }

  /** A style is known by the parameters of its SGR sequence. */
  type Style = string

  /** The styles applied, outermost first, and the link target. */
  datatype Attrs = Attrs(styles: seq<Style>, link: Option<string>)

  const PLAIN := Attrs([], None)

  /** Which call wrote a character. A terminal does not see this. */
  datatype Role = Prefix | Word | Space | Verbatim

  /** What is written: characters, line ends, and the escape sequences. */
  datatype Item =
    | Glyph(c: char, role: Role)
    | Newline
    | Reset
    | StyleOn(style: Style)
    | LinkOpen(url: string)
    | LinkClose

  datatype Settings = Settings(color: bool, hyperlinks: bool, width: nat, charWidth: char -> nat)

  /** The width of a text is the sum of its characters' widths, and a blank takes one column. */
  type Config = s: Settings | s.charWidth(' ') == 1 witness Settings(false, false, 0, _ => 1)

  datatype Cell = Cell(c: char, attrs: Attrs)

  datatype Line = Open(column: nat, emitted: Attrs) | AtStart | AfterBlock(prefix: string)

  datatype Writer = Writer(
    out: Rev<Item>,
    segments: seq<string>,
    nextOverride: Option<string>,
    line: Line,
    word: Rev<Cell>,
    pending: Option<Attrs>,
    desired: Attrs)

  const EMPTY_WRITER := Writer(Nil, [], None, AtStart, Nil, None, PLAIN)

  function TextWidth(cfg: Config, s: string): nat {
    if s == "" then 0 else TextWidth(cfg, s[..|s| - 1]) + cfg.charWidth(s[|s| - 1])
  }

  function WordWidth(cfg: Config, word: Rev<Cell>): nat {
    match word
    case Nil => 0
    case Snoc(init, cell) => WordWidth(cfg, init) + cfg.charWidth(cell.c)
  }

  // ----- style and link transitions -----

  /** Switches on the styles of `styles` from index `from` on, in order. */
  function StylesOn(out: Rev<Item>, styles: seq<Style>, from: nat): Rev<Item>
    requires from <= |styles|
  {
    if |styles| == from then out
    else Snoc(StylesOn(out, styles[..|styles| - 1], from), StyleOn(styles[|styles| - 1]))
  }

  /** The shortest change of styles: nothing, the extra ones, or a reset and all of them. */
  function StyleDiff(out: Rev<Item>, emitted: seq<Style>, desired: seq<Style>): Rev<Item> {
    if emitted == desired then out
    else if emitted <= desired then StylesOn(out, desired, |emitted|)
    else StylesOn(if emitted == [] then out else Snoc(out, Reset), desired, 0)
  }

  function LinkDiff(out: Rev<Item>, emitted: Option<string>, desired: Option<string>): Rev<Item> {
    if emitted == desired then out
    else
      var closed := if emitted.Some? then Snoc(out, LinkClose) else out;
      if desired.Some? then Snoc(closed, LinkOpen(desired.value)) else closed
  }

  /** The attributes that can be shown at all. */
  function Mask(cfg: Config, a: Attrs): Attrs {
    Attrs(if cfg.color then a.styles else [], if cfg.hyperlinks then a.link else None)
  }

  function Sync(cfg: Config, out: Rev<Item>, emitted: Attrs, desired: Attrs): Rev<Item> {
    var out1 := if cfg.color then StyleDiff(out, emitted.styles, desired.styles) else out;
    if cfg.hyperlinks then LinkDiff(out1, emitted.link, desired.link) else out1
  }

  function Synced(cfg: Config, emitted: Attrs, desired: Attrs): Attrs {
    Attrs(if cfg.color then desired.styles else emitted.styles, if cfg.hyperlinks then desired.link else emitted.link)
  }

  // ----- writing -----

  /** Writes one character of content to the open line, with its attributes. */
  function Put(cfg: Config, w: Writer, cell: Cell, role: Role): Writer {
    match w.line
    case Open(column, emitted) =>
      w.(out := Snoc(Sync(cfg, w.out, emitted, cell.attrs), Glyph(cell.c, role)),
         line := Open(column + cfg.charWidth(cell.c), Synced(cfg, emitted, cell.attrs)))
    case _ => w
  }

  function PutAll(cfg: Config, w: Writer, cells: Rev<Cell>, role: Role): Writer {
    match cells
    case Nil => w
    case Snoc(init, cell) => Put(cfg, PutAll(cfg, w, init, role), cell, role)
  }

  function PrefixText(out: Rev<Item>, s: string): Rev<Item> {
    if s == "" then out else Snoc(PrefixText(out, s[..|s| - 1]), Glyph(s[|s| - 1], Prefix))
  }

  function Concat(segments: seq<string>): string {
    if segments == [] then "" else Concat(segments[..|segments| - 1]) + segments[|segments| - 1]
  }

  function TrimEnd(s: string): (r: string)
    ensures r <= s && (r == "" || !IsWhitespace(r[|r| - 1]))
    ensures forall i | |r| <= i < |s| :: IsWhitespace(s[i])
  {
    if s != "" && IsWhitespace(s[|s| - 1]) then TrimEnd(s[..|s| - 1]) else s
  }

  /** Opens the line with its prefix, after a blank line if a block has ended. */
  function OpenLine(cfg: Config, w: Writer): Writer {
    if w.line.Open? then w
    else
      var out := if w.line.AfterBlock? && w.out != Nil then Snoc(PrefixText(w.out, TrimEnd(w.line.prefix)), Newline)
                 else w.out;
      var prefix := if w.nextOverride.Some? then w.nextOverride.value else Concat(w.segments);
      w.(out := PrefixText(out, prefix), nextOverride := None, line := Open(TextWidth(cfg, prefix), PLAIN))
  }

  /** Drops the blanks at the end. */
  function TrimBlanks(out: Rev<Item>): Rev<Item> {
    if out.Snoc? && out.last.Glyph? && out.last.c == ' ' then TrimBlanks(out.init) else out
  }

  function EndLine(cfg: Config, w: Writer): Writer {
    match w.line
    case Open(_, emitted) =>
      var out := TrimBlanks(w.out);
      var out1 := if emitted.link.Some? then Snoc(out, LinkClose) else out;
      var out2 := if cfg.color && emitted.styles != [] then Snoc(out1, Reset) else out1;
      w.(out := Snoc(out2, Newline), line := AtStart)
    case _ => w
  }

  function EndBlock(cfg: Config, w: Writer): Writer {
    EndLine(cfg, w).(line := AfterBlock(Concat(w.segments)))
  }

  /** Writes out the buffered word: after a pending space, on this line if it fits and
      on the next one if not. */
  function Flush(cfg: Config, w: Writer): Writer {
    if w.word == Nil then w
    else
      var w0 := w.(pending := None, word := Nil);
      var w1 :=
        match w.line
        case Open(column, _) =>
          if w.pending.None? then w0
          else if column + 1 + WordWidth(cfg, w.word) > cfg.width then OpenLine(cfg, EndLine(cfg, w0))
          else Put(cfg, w0, Cell(' ', w.pending.value), Space)
        case _ => OpenLine(cfg, w0);
      PutAll(cfg, w1, w.word, Word)
  }

  /** What the renderer asks of the writer. Text comes one character at a time. */
  datatype Op =
    | AddChar(c: char)
    | AddSpace
    | FlushWord
    | FinishLine
    | FinishBlock
    | AddVerbatim(c: char)
    | PushStyle(style: Style)
    | PopStyle
    | SetLink(link: Option<string>)
    | PushPrefix(prefix: string)
    | PopPrefix
    | SetMarker(marker: string)

  function PopLast<T>(s: seq<T>): seq<T> {
    if s == [] then [] else s[..|s| - 1]
  }

  function Step(cfg: Config, w: Writer, op: Op): Writer {
    match op
    case AddChar(c) => w.(word := Snoc(w.word, Cell(c, w.desired)))
    case AddSpace => Flush(cfg, w).(pending := Some(w.desired))
    case FlushWord => Flush(cfg, w)
    case FinishLine => EndLine(cfg, w)
    case FinishBlock => EndBlock(cfg, w)
    case AddVerbatim(c) =>
      if c == '\n' then EndLine(cfg, OpenLine(cfg, w))
      else Put(cfg, OpenLine(cfg, w), Cell(c, Attrs(w.desired.styles, None)), Verbatim)
    case PushStyle(s) => w.(desired := Attrs(w.desired.styles + [s], w.desired.link))
    case PopStyle => w.(desired := Attrs(PopLast(w.desired.styles), w.desired.link))
    case SetLink(l) => w.(desired := Attrs(w.desired.styles, l))
    case PushPrefix(p) => w.(segments := w.segments + [p])
    case PopPrefix => w.(segments := PopLast(w.segments))
    case SetMarker(m) => w.(nextOverride := Some(Concat(w.segments) + m))
  }

  function Run(cfg: Config, w: Writer, ops: Rev<Op>): Writer {
    match ops
    case Nil => w
    case Snoc(init, op) => Step(cfg, Run(cfg, w, init), op)
  }

  /** The finished output. */
  function Finish(cfg: Config, w: Writer): Rev<Item> {
    EndLine(cfg, Flush(cfg, w)).out
  }
}
