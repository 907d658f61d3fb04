/** What a terminal shows of the writer's output, and what it was asked to show. */
module Terminal {
  import opened Wrappers
  import opened LineLayout
  import opened ShownText
  import opened WantedText

  /** The attributes in force after the output so far. */
  function Shown(out: Rev<Item>): Attrs {
    match out
    case Nil => PLAIN
    case Snoc(init, item) =>
      var a := Shown(init);
      match item
      case Reset => Attrs([], a.link)
      case StyleOn(s) => Attrs(a.styles + [s], a.link)
      case LinkOpen(u) => Attrs(a.styles, Some(u))
      case LinkClose => Attrs(a.styles, None)
      case _ => a
  }

  // ----- the line being written -----

  function CurrentWidth(cfg: Config, out: Rev<Item>): nat {
    match out
    case Nil => 0
    case Snoc(init, item) =>
      if item.Newline? then 0
      else CurrentWidth(cfg, init) + if item.Glyph? then cfg.charWidth(item.c) else 0
  }

  /** Whether a breakable space has been written on the current line. */
  predicate HasSpace(out: Rev<Item>) {
    match out
    case Nil => false
    case Snoc(init, item) => !item.Newline? && ((item.Glyph? && item.role == Space) || HasSpace(init))
  }

  /** The last character on the current line. */
  function LastGlyph(out: Rev<Item>): Option<(char, Role)> {
    match out
    case Nil => None
    case Snoc(init, item) =>
      if item.Newline? then None
      else if item.Glyph? then Some((item.c, item.role))
      else LastGlyph(init)
  }

  predicate LastRole(out: Rev<Item>, role: Role) {
    LastGlyph(out).Some? && LastGlyph(out).value.1 == role
  }

  // ----- what every finished output satisfies -----

  /** At each line end nothing is styled and no link is open. */
  predicate CleanEnds(out: Rev<Item>) {
    match out
    case Nil => true
    case Snoc(init, item) => CleanEnds(init) && (item.Newline? ==> Shown(init) == PLAIN)
  }

  /** Each finished line fits the width, or has no place left where it could break. */
  predicate LinesFit(cfg: Config, out: Rev<Item>) {
    match out
    case Nil => true
    case Snoc(init, item) =>
      && LinesFit(cfg, init)
      && (item.Newline? ==> HasSpace(init) ==> CurrentWidth(cfg, init) <= cfg.width)
  }

  /** A breakable space is a blank right after a word: never first on a line, never doubled. */
  predicate SpacesTidy(out: Rev<Item>) {
    match out
    case Nil => true
    case Snoc(init, item) =>
      SpacesTidy(init) && (item.Glyph? && item.role == Space ==> item.c == ' ' && LastRole(init, Word))
  }

  /** A prefix is shown plain. */
  predicate PrefixesPlain(out: Rev<Item>) {
    match out
    case Nil => true
    case Snoc(init, item) => PrefixesPlain(init) && (item.Glyph? && item.role == Prefix ==> Shown(init) == PLAIN)
  }

  // ----- what is shown -----

  /** The page a terminal shows: escapes are none of it, but for how they show the rest. */
  function View(out: Rev<Item>): Page {
    match out
    case Nil => Nil
    case Snoc(init, item) =>
      match item
      case Newline => Snoc(View(init), End)
      case Glyph(c, role) =>
        Snoc(View(init), if role == Prefix then Lead(c)
                         else if role == Space then Gap(Shown(init), "")
                         else Char(Cell(c, Shown(init))))
      case _ => View(init)
  }

  function MaskedWord(cfg: Config, word: Rev<Cell>): Rev<Cell> {
    match word
    case Nil => Nil
    case Snoc(init, cell) => Snoc(MaskedWord(cfg, init), Cell(cell.c, Mask(cfg, cell.attrs)))
  }

  // ----- the writer's invariant -----

  ghost predicate Inv(cfg: Config, w: Writer) {
    && CleanEnds(w.out) && LinesFit(cfg, w.out) && SpacesTidy(w.out) && PrefixesPlain(w.out)
    && match w.line
       case Open(column, emitted) =>
         && Shown(w.out) == emitted && Mask(cfg, emitted) == emitted
         && column == CurrentWidth(cfg, w.out)
         && (HasSpace(w.out) ==> column <= cfg.width)
         && (LastRole(w.out, Word) || (LastRole(w.out, Verbatim) && !HasSpace(w.out)))
       case _ =>
         && (w.out == Nil || w.out.last == Newline)
         && Shown(w.out) == PLAIN
  }

  /** When an operation may be asked for: verbatim text starts only with no word buffered;
      words and verbatim text do not share a line; a prefix is popped only after it was
      pushed. And a word may follow another one on an open line only across a pending
      space. */
  predicate Ready(w: Writer, op: Op) {
    match op
    case AddSpace => FlushReady(w) && (w.line.Open? ==> LastRole(w.out, Word))
    case FlushWord => FlushReady(w)
    case FinishLine => FlushReady(w)
    case FinishBlock => FlushReady(w)
    case AddVerbatim(_) => w.word == Nil && (w.line.Open? ==> LastRole(w.out, Verbatim))
    case PopPrefix => w.segments != []
    case _ => true
  }

  predicate FlushReady(w: Writer) {
    w.word != Nil && w.line.Open? ==> LastRole(w.out, Word) && w.pending.Some?
  }

  // ----- syncing -----

  lemma {:induction false} StylesOnShown(out: Rev<Item>, styles: seq<Style>, from: nat)
    requires from <= |styles| && Shown(out).styles == styles[..from]
    ensures Shown(StylesOn(out, styles, from)) == Attrs(styles, Shown(out).link)
  {
    if |styles| == from {
      assert styles[..from] == styles;
    } else {
      var init := styles[..|styles| - 1];
      assert init[..from] == styles[..from];
      StylesOnShown(out, init, from);
      assert init + [styles[|styles| - 1]] == styles;
    }
  }

  /** Escapes change neither the line nor the content. */
  ghost predicate SameText(cfg: Config, a: Rev<Item>, b: Rev<Item>) {
    && CurrentWidth(cfg, a) == CurrentWidth(cfg, b) && HasSpace(a) == HasSpace(b) && LastGlyph(a) == LastGlyph(b)
    && CleanEnds(a) == CleanEnds(b) && LinesFit(cfg, a) == LinesFit(cfg, b) && SpacesTidy(a) == SpacesTidy(b)
    && PrefixesPlain(a) == PrefixesPlain(b) && View(a) == View(b)
  }

  lemma {:induction false} StylesOnSameText(cfg: Config, out: Rev<Item>, styles: seq<Style>, from: nat)
    requires from <= |styles|
    ensures SameText(cfg, out, StylesOn(out, styles, from))
  {
    if |styles| > from {
      StylesOnSameText(cfg, out, styles[..|styles| - 1], from);
    }
  }

  lemma SameTextTransitive(cfg: Config, a: Rev<Item>, b: Rev<Item>, c: Rev<Item>)
    requires SameText(cfg, a, b) && SameText(cfg, b, c)
    ensures SameText(cfg, a, c)
  {
  }

  lemma StyleDiffShown(cfg: Config, out: Rev<Item>, emitted: seq<Style>, desired: seq<Style>)
    requires Shown(out).styles == emitted
    ensures Shown(StyleDiff(out, emitted, desired)) == Attrs(desired, Shown(out).link)
    ensures SameText(cfg, out, StyleDiff(out, emitted, desired))
  {
    if emitted == desired {
    } else if emitted <= desired {
      assert desired[..|emitted|] == emitted;
      StylesOnShown(out, desired, |emitted|);
      StylesOnSameText(cfg, out, desired, |emitted|);
    } else {
      var out0 := if emitted == [] then out else Snoc(out, Reset);
      assert desired[..0] == [];
      assert SameText(cfg, out, out0) && Shown(out0) == Attrs([], Shown(out).link);
      StylesOnShown(out0, desired, 0);
      StylesOnSameText(cfg, out0, desired, 0);
      hide StylesOn, SameText;
      SameTextTransitive(cfg, out, out0, StylesOn(out0, desired, 0));
    }
  }

  lemma LinkDiffShown(cfg: Config, out: Rev<Item>, emitted: Option<string>, desired: Option<string>)
    requires Shown(out).link == emitted
    ensures Shown(LinkDiff(out, emitted, desired)) == Attrs(Shown(out).styles, desired)
    ensures SameText(cfg, out, LinkDiff(out, emitted, desired))
  {
  }

  /** After a sync the terminal shows what was desired, as far as it can be shown. */
  lemma SyncShown(cfg: Config, out: Rev<Item>, emitted: Attrs, desired: Attrs)
    requires Shown(out) == emitted && Mask(cfg, emitted) == emitted
    ensures Shown(Sync(cfg, out, emitted, desired)) == Mask(cfg, desired) == Synced(cfg, emitted, desired)
    ensures SameText(cfg, out, Sync(cfg, out, emitted, desired))
  {
    var out1 := if cfg.color then StyleDiff(out, emitted.styles, desired.styles) else out;
    StyleDiffShown(cfg, out, emitted.styles, desired.styles);
    LinkDiffShown(cfg, out1, emitted.link, desired.link);
    assert SameText(cfg, out, out);
    hide StyleDiff, LinkDiff, SameText, Shown;
    SameTextTransitive(cfg, out, out1, if cfg.hyperlinks then LinkDiff(out1, emitted.link, desired.link) else out1);
  }

  // ----- one character -----

  lemma PutGlyph(cfg: Config, w: Writer, cell: Cell, role: Role)
    requires w.line.Open? && Shown(w.out) == w.line.emitted && Mask(cfg, w.line.emitted) == w.line.emitted
    requires w.line.column == CurrentWidth(cfg, w.out)
    requires CleanEnds(w.out) && LinesFit(cfg, w.out) && SpacesTidy(w.out) && PrefixesPlain(w.out)
    requires role != Prefix && (role == Space ==> cell.c == ' ' && LastRole(w.out, Word))
    ensures var w' := Put(cfg, w, cell, role);
            && w' == w.(out := w'.out, line := w'.line) && w'.line.Open?
            && Shown(w'.out) == w'.line.emitted && Mask(cfg, w'.line.emitted) == w'.line.emitted
            && w'.line.column == CurrentWidth(cfg, w'.out) == w.line.column + cfg.charWidth(cell.c)
            && CleanEnds(w'.out) && LinesFit(cfg, w'.out) && SpacesTidy(w'.out) && PrefixesPlain(w'.out)
            && LastRole(w'.out, role) && HasSpace(w'.out) == (role == Space || HasSpace(w.out))
            && View(w'.out)
               == Snoc(View(w.out), if role == Space then Gap(Mask(cfg, cell.attrs), "")
                                    else Char(Cell(cell.c, Mask(cfg, cell.attrs))))
  {
    SyncShown(cfg, w.out, w.line.emitted, cell.attrs);
    hide Sync, Synced, Mask;
  }

  // ----- whole words -----

  /** An open line, before or after a character of content: what `Put` needs and keeps. */
  ghost predicate OpenInv(cfg: Config, w: Writer) {
    && w.line.Open? && Shown(w.out) == w.line.emitted && Mask(cfg, w.line.emitted) == w.line.emitted
    && w.line.column == CurrentWidth(cfg, w.out)
    && CleanEnds(w.out) && LinesFit(cfg, w.out) && SpacesTidy(w.out) && PrefixesPlain(w.out)
  }

  lemma {:induction false} PutWord(cfg: Config, w: Writer, cells: Rev<Cell>, role: Role)
    requires OpenInv(cfg, w) && (role == Word || role == Verbatim)
    ensures var w' := PutAll(cfg, w, cells, role);
            && OpenInv(cfg, w') && w' == w.(out := w'.out, line := w'.line)
            && w'.line.column == w.line.column + WordWidth(cfg, cells)
            && HasSpace(w'.out) == HasSpace(w.out)
            && (cells != Nil ==> LastRole(w'.out, role))
            && View(w'.out) == AddWord(View(w.out), MaskedWord(cfg, cells))
  {
    match cells
    case Nil =>
    case Snoc(init, cell) =>
      PutWord(cfg, w, init, role);
      PutGlyph(cfg, PutAll(cfg, w, init, role), cell, role);
      hide Put, Mask;
  }

  // ----- line starts and ends -----

  lemma {:induction false} PrefixTextFacts(cfg: Config, out: Rev<Item>, s: string)
    requires Shown(out) == PLAIN
    ensures var out' := PrefixText(out, s);
            && Shown(out') == PLAIN && View(out') == AddLeads(View(out), s) && HasSpace(out') == HasSpace(out)
            && CurrentWidth(cfg, out') == CurrentWidth(cfg, out) + TextWidth(cfg, s)
            && CleanEnds(out') == CleanEnds(out) && LinesFit(cfg, out') == LinesFit(cfg, out)
            && SpacesTidy(out') == SpacesTidy(out) && PrefixesPlain(out') == PrefixesPlain(out)
            && (s != "" ==> LastGlyph(out') == Some((s[|s| - 1], Prefix)))
  {
    if s != "" {
      PrefixTextFacts(cfg, out, s[..|s| - 1]);
    }
  }

  lemma OpenLineFacts(cfg: Config, w: Writer)
    requires Inv(cfg, w) && !w.line.Open?
    ensures var w' := OpenLine(cfg, w);
            && OpenInv(cfg, w') && w' == w.(out := w'.out, line := w'.line, nextOverride := None)
            && !HasSpace(w'.out)
  {
    var out := if w.line.AfterBlock? && w.out != Nil then Snoc(PrefixText(w.out, TrimEnd(w.line.prefix)), Newline)
               else w.out;
    if w.line.AfterBlock? && w.out != Nil {
      PrefixTextFacts(cfg, w.out, TrimEnd(w.line.prefix));
    }
    PrefixTextFacts(cfg, out, if w.nextOverride.Some? then w.nextOverride.value else Concat(w.segments));
    hide PrefixText, Concat, TrimEnd, TextWidth;
  }

  /** Dropping blanks before a line end. */
  lemma {:induction false} TrimBlanksFacts(cfg: Config, out: Rev<Item>)
    ensures var out' := TrimBlanks(out);
            && Shown(out') == Shown(out) && CurrentWidth(cfg, out') <= CurrentWidth(cfg, out)
            && (HasSpace(out') ==> HasSpace(out))
            && (CleanEnds(out) ==> CleanEnds(out')) && (LinesFit(cfg, out) ==> LinesFit(cfg, out'))
            && (SpacesTidy(out) ==> SpacesTidy(out')) && (PrefixesPlain(out) ==> PrefixesPlain(out'))
  {
    if out.Snoc? && out.last.Glyph? && out.last.c == ' ' {
      TrimBlanksFacts(cfg, out.init);
    }
  }

  lemma CloseEscapes(cfg: Config, out: Rev<Item>, emitted: Attrs)
    requires Shown(out) == emitted && Mask(cfg, emitted) == emitted
    ensures var out1 := if emitted.link.Some? then Snoc(out, LinkClose) else out;
            var out2 := if cfg.color && emitted.styles != [] then Snoc(out1, Reset) else out1;
            Shown(out2) == PLAIN && SameText(cfg, out, out2)
  {
  }

  lemma EndLineFacts(cfg: Config, w: Writer)
    requires OpenInv(cfg, w) && (HasSpace(w.out) ==> w.line.column <= cfg.width)
    ensures var w' := EndLine(cfg, w);
            && Inv(cfg, w') && w'.line == AtStart && w' == w.(out := w'.out, line := AtStart)
            && View(w'.out) == Snoc(View(TrimBlanks(w.out)), End)
  {
    var out := TrimBlanks(w.out);
    TrimBlanksFacts(cfg, w.out);
    CloseEscapes(cfg, out, w.line.emitted);
    hide TrimBlanks;
    assert HasSpace(out) ==> CurrentWidth(cfg, out) <= cfg.width;
  }

  lemma EndLineAny(cfg: Config, w: Writer)
    requires Inv(cfg, w)
    ensures var w' := EndLine(cfg, w);
            Inv(cfg, w') && !w'.line.Open? && w' == w.(out := w'.out, line := w'.line)
  {
    if w.line.Open? {
      EndLineFacts(cfg, w);
    }
  }

  // ----- each operation -----

  /** Flushing keeps the invariant. */
  lemma FlushInv(cfg: Config, w: Writer)
    requires Inv(cfg, w) && FlushReady(w)
    ensures var w' := Flush(cfg, w);
            && Inv(cfg, w') && w'.word == Nil && w'.desired == w.desired && w'.segments == w.segments
            && (w.word != Nil ==> w'.pending == None && w'.line.Open? && LastRole(w'.out, Word))
  {
    var w0 := w.(pending := None, word := Nil);
    hide View;
    if w.word == Nil {
    } else if !w.line.Open? {
      OpenLineFacts(cfg, w0);
      PutWord(cfg, OpenLine(cfg, w0), w.word, Word);
    } else if w.line.column + 1 + WordWidth(cfg, w.word) > cfg.width {
      EndLineFacts(cfg, w0);
      OpenLineFacts(cfg, EndLine(cfg, w0));
      PutWord(cfg, OpenLine(cfg, EndLine(cfg, w0)), w.word, Word);
    } else {
      var cell := Cell(' ', w.pending.value);
      PutGlyph(cfg, w0, cell, Space);
      PutWord(cfg, Put(cfg, w0, cell, Space), w.word, Word);
    }
  }

  lemma VerbatimInv(cfg: Config, w: Writer, c: char)
    requires Inv(cfg, w) && Ready(w, AddVerbatim(c))
    ensures var w' := Step(cfg, w, AddVerbatim(c));
            && Inv(cfg, w') && w'.word == Nil && w'.desired == w.desired && w'.segments == w.segments
            && w'.pending == w.pending
            && (w'.line.Open? ==> LastRole(w'.out, Verbatim)) && (!w'.line.Open? ==> !LastRole(w'.out, Word))
  {
    hide View;
    var w1 := OpenLine(cfg, w);
    if !w.line.Open? {
      OpenLineFacts(cfg, w);
    }
    if c == '\n' {
      EndLineFacts(cfg, w1);
    } else {
      PutGlyph(cfg, w1, Cell(c, Attrs(w.desired.styles, None)), Verbatim);
    }
  }

  lemma OpenedInv(cfg: Config, w: Writer)
    requires Inv(cfg, w)
    ensures var w' := OpenLine(cfg, w);
            && OpenInv(cfg, w') && (HasSpace(w'.out) ==> w'.line.column <= cfg.width)
            && w'.desired == w.desired && w'.segments == w.segments
  {
    if !w.line.Open? {
      OpenLineFacts(cfg, w);
    }
    hide View;
  }

  /** Every operation, when it is ready, keeps the invariant. */
  lemma StepInv(cfg: Config, w: Writer, op: Op)
    requires Inv(cfg, w) && Ready(w, op)
    ensures Inv(cfg, Step(cfg, w, op))
  {
    if op.AddSpace? || op.FlushWord? {
      FlushInv(cfg, w);
    } else if op.FinishLine? || op.FinishBlock? {
      EndLineAny(cfg, w);
    } else if op.AddVerbatim? {
      VerbatimInv(cfg, w, op.c);
    }
    hide Flush, EndLine, OpenLine, Put;
  }

  predicate AllReady(cfg: Config, w: Writer, ops: Rev<Op>) {
    match ops
    case Nil => true
    case Snoc(init, op) => AllReady(cfg, w, init) && Ready(Run(cfg, w, init), op)
  }
}
