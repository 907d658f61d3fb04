/** What the writer holds, shown and buffered, and what it was asked for. */
module HeldText {
  import opened Wrappers
  import opened LineLayout
  import opened ShownText
  import opened WantedText
  import opened Terminal
  import opened TrailingBlanks

  function PlaceOf(line: Line): Place {
    match line
    case Open(_, _) => Within
    case AtStart => Fresh
    case AfterBlock(prefix) => Parted(prefix)
  }

  /** The draft with this text that stands where the writer does. */
  function DraftOf(cfg: Config, w: Writer, text: Page): Draft {
    Draft(text, PlaceOf(w.line), w.nextOverride,
          if w.pending.Some? then Some(Mask(cfg, w.pending.value)) else None, MaskedWord(cfg, w.word))
  }

  /** The writer shows the text of the draft and holds the rest of it. A marker set within a
      line is not accounted for. */
  ghost predicate Holds(cfg: Config, w: Writer, d: Draft) {
    && d == DraftOf(cfg, w, d.text) && Shows(View(w.out), d.text, More) && Neat(w.out)
    && (w.line.Open? ==> w.nextOverride == None)
  }

  /** What a run of operations asks for: the attributes desired and the prefixes in force at
      the moment, and the text so far. */
  datatype Request = Request(desired: Attrs, segments: seq<string>, draft: Draft)

  /** Each character and each space is asked for with the attributes desired at its moment. */
  function Ask(cfg: Config, q: Request, op: Op): Request {
    var here, prefix := Mask(cfg, q.desired), Concat(q.segments);
    match op
    case AddChar(c) => q.(draft := CharAdded(q.draft, Cell(c, here)))
    case AddSpace => q.(draft := SpaceAdded(q.draft, here, prefix))
    case FlushWord => q.(draft := WordClosed(q.draft, prefix))
    case FinishLine => q.(draft := LineClosed(q.draft))
    case FinishBlock => q.(draft := BlockClosed(q.draft, prefix))
    case AddVerbatim(c) =>
      q.(draft := CodeAdded(q.draft, Cell(c, Mask(cfg, Attrs(q.desired.styles, None))), prefix))
    case PushStyle(s) => q.(desired := Attrs(q.desired.styles + [s], q.desired.link))
    case PopStyle => q.(desired := Attrs(PopLast(q.desired.styles), q.desired.link))
    case SetLink(l) => q.(desired := Attrs(q.desired.styles, l))
    case PushPrefix(p) => q.(segments := q.segments + [p])
    case PopPrefix => q.(segments := PopLast(q.segments))
    case SetMarker(m) => q.(draft := MarkerSet(q.draft, prefix + m))
  }

  function AskAll(cfg: Config, q: Request, ops: Rev<Op>): Request {
    match ops
    case Nil => q
    case Snoc(init, op) => Ask(cfg, AskAll(cfg, q, init), op)
  }

  /** The writer holds what is asked for. */
  ghost predicate Meets(cfg: Config, w: Writer, q: Request) {
    w.desired == q.desired && w.segments == q.segments && Holds(cfg, w, q.draft)
  }

  // ----- lines -----

  /** Opening a line shows what is wanted of it: the separating line and the prefix. */
  lemma OpenLineHolds(cfg: Config, w: Writer, d: Draft)
    requires Inv(cfg, w) && Holds(cfg, w, d)
    ensures Holds(cfg, OpenLine(cfg, w), LineOpened(d, Concat(w.segments)))
  {
    hide PrefixText, Concat, TrimEnd, TextWidth, Shows, MaskedWord, AddLeads, Neat, Tail, NoTrailingBlank;
    if !w.line.Open? {
      OpenLineNeat(cfg, w);
      var out, text, prefix := w.out, d.text, NextStart(d, Concat(w.segments));
      SomethingShown(w.out, d.text);
      if w.line.AfterBlock? && w.out != Nil {
        var trimmed := TrimEnd(w.line.prefix);
        PrefixTextFacts(cfg, w.out, trimmed);
        LeadsShow(View(w.out), d.text, trimmed);
        LeadsShowEnd(View(w.out), d.text, trimmed);
        out, text := Snoc(PrefixText(w.out, trimmed), Newline), Snoc(AddLeads(d.text, trimmed), End);
      }
      PrefixTextFacts(cfg, out, prefix);
      LeadsShow(View(out), text, prefix);
    }
  }

  lemma ShowsEnd(shown: Page, wanted: Page)
    requires Shows(shown, wanted, LineEnds)
    ensures Shows(Snoc(shown, End), Snoc(wanted, End), More)
  {
  }

  /** A line of a trimmed prefix alone. */
  lemma LeadsShowEnd(shown: Page, wanted: Page, s: string)
    requires Shows(shown, wanted, More) && shown.Snoc? && shown.last.End? && (s != "" ==> s[|s| - 1] != ' ')
    ensures Shows(Snoc(AddLeads(shown, s), End), Snoc(AddLeads(wanted, s), End), More)
  {
    LeadsShow(shown, wanted, s);
    ShowsWhole(AddLeads(shown, s), AddLeads(wanted, s), LineEnds);
  }

  /** At a line start, text is wanted exactly if there is output. */
  lemma SomethingShown(out: Rev<Item>, wanted: Page)
    requires Shows(View(out), wanted, More) && (out == Nil || out.last == Newline)
    ensures wanted == Nil <==> out == Nil
  {
    if out == Nil && wanted != Nil {
      NothingShown(wanted);
    }
  }

  /** A blank piece at the end is the last character of the line, as it is shown. */
  lemma {:induction false} LastPiece(out: Rev<Item>)
    requires PrefixesPlain(out) && View(out).Snoc? && IsBlank(View(out).last)
    ensures LastShown(out) == Some(LooksOf(View(out).last))
  {
    if !out.last.Glyph? {
      LastPiece(out.init);
    }
  }

  /** Trimming drops the last blanks up to the first escape sequence, and there is one where
      they begin to be shown differently. */
  lemma {:induction false} TrimmedShows(out: Rev<Item>, wanted: Page, after: After)
    requires Neat(out) && PrefixesPlain(out) && SpacesTidy(out) && Shows(View(out), wanted, More)
    requires after.LineEnds? || (after.Missing? && (EndsBlank(out) ==> Shown(out) == after.attrs))
    ensures Shows(View(TrimBlanks(out)), wanted, after)
    decreases Gaps(wanted), wanted
  {
    if wanted.Snoc? {
      var init, p := wanted.init, wanted.last;
      var before := if p.End? then LineEnds else More;
      if View(out).Snoc? && View(out).last == AsShown(p) && Shows(View(out).init, init, before) {
        if IsBlank(p) {
          BlankTrimmed(out, init, p);
          if !EndsInEscape(out.init) {
            TrimmedShows(out.init, init, Missing(LooksOf(p)));
          }
        }
      } else {
        TrimmedShows(out, AddLeads(Snoc(init, End), p.next), after);
      }
    }
  }

  lemma BlankTrimmed(out: Rev<Item>, init: Page, p: Piece)
    requires Neat(out) && PrefixesPlain(out) && SpacesTidy(out) && View(out).Snoc? && View(out).last == AsShown(p)
    requires IsBlank(p) && Shows(View(out).init, init, More)
    ensures out.last.Glyph? && out.last.c == ' ' && EndsBlank(out) && View(out.init) == View(out).init
    ensures LooksOf(p) == Shown(out.init) == Shown(out)
    ensures EndsInEscape(out.init) ==> TrimBlanks(out) == out.init && Shows(View(out.init), init, Missing(LooksOf(p)))
  {
    if EndsInEscape(out.init) {
      if View(out.init).Snoc? && IsBlank(View(out.init).last) {
        LastPiece(out.init);
      }
      ShowsWhole(View(out.init), init, Missing(LooksOf(p)));
    }
    hide Shows;
  }

  /** Ending a line, whether or not a word is buffered. */
  lemma EndLineHolds(cfg: Config, w: Writer, d: Draft)
    requires OpenInv(cfg, w) && (HasSpace(w.out) ==> w.line.column <= cfg.width) && Holds(cfg, w, d)
    ensures Holds(cfg, EndLine(cfg, w), LineClosed(d))
  {
    EndLineFacts(cfg, w);
    EndLineExact(cfg, w);
    TrimmedShows(w.out, d.text, LineEnds);
    ShowsEnd(View(TrimBlanks(w.out)), d.text);
    hide Shows, TrimBlanks, View, Neat, Tail, NoTrailingBlank;
  }

  // ----- words -----

  lemma {:induction false} WordShows(shown: Page, wanted: Page, word: Rev<Cell>)
    requires Shows(shown, wanted, More)
    ensures Shows(AddWord(shown, word), AddWord(wanted, word), More)
  {
    if word.Snoc? {
      WordShows(shown, wanted, word.init);
    }
  }

  /** Flushing keeps the invariant and shows what was held, the space before the word too,
      with its own attributes, unless the line ends in its place. */
  lemma FlushStep(cfg: Config, w: Writer, d: Draft)
    requires Inv(cfg, w) && FlushReady(w) && Holds(cfg, w, d)
    ensures Inv(cfg, Flush(cfg, w)) && Holds(cfg, Flush(cfg, w), WordClosed(d, Concat(w.segments)))
  {
    FlushInv(cfg, w);
    hide Shows, Inv;
    if w.word == Nil {
    } else if !w.line.Open? {
      FlushAtStart(cfg, w, d);
    } else if w.line.column + 1 + WordWidth(cfg, w.word) > cfg.width {
      FlushWrapped(cfg, w, d);
    } else {
      FlushFits(cfg, w, d);
    }
  }

  /** A word goes on an open line. */
  lemma WordHolds(cfg: Config, w: Writer, d: Draft, word: Rev<Cell>)
    requires OpenInv(cfg, w) && Holds(cfg, w, d) && w.word == Nil
    ensures Holds(cfg, PutAll(cfg, w, word, Word), d.(text := AddWord(d.text, MaskedWord(cfg, word))))
  {
    PutWord(cfg, w, word, Word);
    PutAllNeat(cfg, w, word, Word);
    WordShows(View(w.out), d.text, MaskedWord(cfg, word));
    hide Shows, PutAll, View, Neat, Tail, NoTrailingBlank;
  }

  lemma FlushAtStart(cfg: Config, w: Writer, d: Draft)
    requires Inv(cfg, w) && w.word != Nil && !w.line.Open? && Holds(cfg, w, d)
    ensures Holds(cfg, Flush(cfg, w), WordClosed(d, Concat(w.segments)))
  {
    var w0, d0 := w.(pending := None, word := Nil), d.(space := None, word := Nil);
    OpenLineFacts(cfg, w0);
    OpenLineHolds(cfg, w0, d0);
    hide Shows, Concat, OpenLine, PutAll;
    WordHolds(cfg, OpenLine(cfg, w0), LineOpened(d0, Concat(w.segments)), w.word);
  }

  lemma FlushWrapped(cfg: Config, w: Writer, d: Draft)
    requires Inv(cfg, w) && w.word != Nil && FlushReady(w) && w.line.Open? && Holds(cfg, w, d)
    requires w.line.column + 1 + WordWidth(cfg, w.word) > cfg.width
    ensures Holds(cfg, Flush(cfg, w), WordClosed(d, Concat(w.segments)))
  {
    var w0, d0 := w.(pending := None, word := Nil), d.(space := None, word := Nil);
    hide Shows, Concat, OpenLine, EndLine, PutAll;
    EndLineFacts(cfg, w0);
    EndLineHolds(cfg, w0, d0);
    var w1, d1 := EndLine(cfg, w0), LineClosed(d0);
    OpenLineFacts(cfg, w1);
    OpenLineHolds(cfg, w1, d1);
    var gap := Gap(d.space.value, Concat(w.segments));
    BrokenAtGap(View(OpenLine(cfg, w1).out), d.text, gap);
    WordHolds(cfg, OpenLine(cfg, w1), d0.(text := Snoc(d.text, gap)), w.word);
  }

  lemma BrokenAtGap(shown: Page, wanted: Page, gap: Piece)
    requires gap.Gap? && Shows(shown, AddLeads(Snoc(wanted, End), gap.next), More)
    ensures Shows(shown, Snoc(wanted, gap), More)
  {
  }

  lemma FlushFits(cfg: Config, w: Writer, d: Draft)
    requires Inv(cfg, w) && w.word != Nil && FlushReady(w) && w.line.Open? && Holds(cfg, w, d)
    requires w.line.column + 1 + WordWidth(cfg, w.word) <= cfg.width
    ensures Holds(cfg, Flush(cfg, w), WordClosed(d, Concat(w.segments)))
  {
    var w0, d0 := w.(pending := None, word := Nil), d.(space := None, word := Nil);
    var cell, gap := Cell(' ', w.pending.value), Gap(d.space.value, Concat(w.segments));
    hide Concat, PutAll, Put, Neat, Tail, NoTrailingBlank;
    PutGlyph(cfg, w0, cell, Space);
    PutNeat(cfg, w0, cell, Space);
    GapShows(View(w.out), d.text, gap);
    hide Shows;
    WordHolds(cfg, Put(cfg, w0, cell, Space), d0.(text := Snoc(d.text, gap)), w.word);
  }

  lemma GapShows(shown: Page, wanted: Page, gap: Piece)
    requires gap.Gap? && Shows(shown, wanted, More)
    ensures Shows(Snoc(shown, Gap(gap.attrs, "")), Snoc(wanted, gap), More)
  {
  }

  // ----- code -----

  /** A character of code is shown in its place, and a newline ends a line, an empty one too. */
  lemma VerbatimStep(cfg: Config, w: Writer, c: char, d: Draft)
    requires Inv(cfg, w) && Ready(w, AddVerbatim(c)) && Holds(cfg, w, d)
    ensures var cell := Cell(c, Mask(cfg, Attrs(w.desired.styles, None)));
            Holds(cfg, Step(cfg, w, AddVerbatim(c)), CodeAdded(d, cell, Concat(w.segments)))
  {
    hide Shows, Concat, OpenLine, EndLine, Put, Neat, Tail, NoTrailingBlank;
    var w1, d1 := OpenLine(cfg, w), LineOpened(d, Concat(w.segments));
    OpenLineHolds(cfg, w, d);
    OpenedInv(cfg, w);
    if c == '\n' {
      EndLineHolds(cfg, w1, d1);
    } else {
      var cell := Cell(c, Attrs(w.desired.styles, None));
      PutGlyph(cfg, w1, cell, Verbatim);
      PutNeat(cfg, w1, cell, Verbatim);
      CharShows(View(w1.out), d1.text, Char(Cell(c, Mask(cfg, cell.attrs))));
    }
  }

  lemma CharShows(shown: Page, wanted: Page, p: Piece)
    requires p.Char? && Shows(shown, wanted, More)
    ensures Shows(Snoc(shown, p), Snoc(wanted, p), More)
  {
  }

  // ----- each operation -----

  /** A marker is set between lines. */
  predicate MarksStart(w: Writer, op: Op) {
    op.SetMarker? ==> !w.line.Open?
  }

  /** Asking for a space: the last one asked for before a word is the one that counts. */
  lemma SpaceStep(cfg: Config, w: Writer, d: Draft)
    requires Inv(cfg, w) && Ready(w, AddSpace) && Holds(cfg, w, d)
    ensures Holds(cfg, Step(cfg, w, AddSpace), SpaceAdded(d, Mask(cfg, w.desired), Concat(w.segments)))
  {
    FlushStep(cfg, w, d);
    FlushInv(cfg, w);
    hide Shows, Flush, WordClosed, View, Inv;
  }

  /** Every operation that is ready, with markers set between lines, makes the writer hold
      what it held, changed just as the operation asks for. */
  lemma StepSound(cfg: Config, w: Writer, op: Op, q: Request)
    requires Inv(cfg, w) && Ready(w, op) && MarksStart(w, op) && Meets(cfg, w, q)
    ensures Inv(cfg, Step(cfg, w, op)) && Meets(cfg, Step(cfg, w, op), Ask(cfg, q, op))
  {
    StepInv(cfg, w, op);
    hide Shows, View, Inv, Flush, EndLine, OpenLine, Put, Mask, Concat, WordClosed, LineOpened;
    if op.AddSpace? {
      SpaceStep(cfg, w, q.draft);
      FlushInv(cfg, w);
    } else if op.FlushWord? {
      FlushStep(cfg, w, q.draft);
      FlushInv(cfg, w);
    } else if op.FinishLine? || op.FinishBlock? {
      LineEndStep(cfg, w, q.draft);
    } else if op.AddVerbatim? {
      VerbatimStep(cfg, w, op.c, q.draft);
      VerbatimInv(cfg, w, op.c);
    }
  }

  /** Ending a line or a block. */
  lemma LineEndStep(cfg: Config, w: Writer, d: Draft)
    requires Inv(cfg, w) && Holds(cfg, w, d)
    ensures Holds(cfg, EndLine(cfg, w), LineClosed(d))
    ensures Holds(cfg, EndBlock(cfg, w), BlockClosed(d, Concat(w.segments)))
    ensures EndLine(cfg, w) == w.(out := EndLine(cfg, w).out, line := EndLine(cfg, w).line)
  {
    if w.line.Open? {
      EndLineHolds(cfg, w, d);
    }
    EndLineAny(cfg, w);
    hide Shows, View, Inv, EndLine, Concat;
  }

  predicate AllMarkStarts(cfg: Config, w: Writer, ops: Rev<Op>) {
    match ops
    case Nil => true
    case Snoc(init, op) => AllMarkStarts(cfg, w, init) && MarksStart(Run(cfg, w, init), op)
  }

  /** Over any run of ready operations with markers set between lines: the invariant holds
      throughout, and the writer holds the text asked for, each character as it was asked to
      be shown. */
  lemma {:induction false} RunSound(cfg: Config, w: Writer, ops: Rev<Op>, q: Request)
    requires Inv(cfg, w) && AllReady(cfg, w, ops) && AllMarkStarts(cfg, w, ops) && Meets(cfg, w, q)
    ensures Inv(cfg, Run(cfg, w, ops)) && Meets(cfg, Run(cfg, w, ops), AskAll(cfg, q, ops))
  {
    match ops
    case Nil =>
    case Snoc(init, op) =>
      RunSound(cfg, w, init, q);
      StepSound(cfg, Run(cfg, w, init), op, AskAll(cfg, q, init));
      hide Meets, Inv, Ready;
  }

  /** Finishing shows the whole text asked for and closes the last line. */
  lemma FinishSound(cfg: Config, w: Writer, q: Request)
    requires Inv(cfg, w) && FlushReady(w) && Meets(cfg, w, q)
    ensures var out := Finish(cfg, w);
            && CleanEnds(out) && LinesFit(cfg, out) && SpacesTidy(out) && PrefixesPlain(out)
            && Shown(out) == PLAIN && (out == Nil || out.last == Newline)
            && Shows(View(out), Whole(q.draft, Concat(q.segments)), More)
  {
    hide Shows, View, Concat, EndLine, Flush, WordClosed;
    FlushStep(cfg, w, q.draft);
    LineEndStep(cfg, Flush(cfg, w), WordClosed(q.draft, Concat(q.segments)));
    EndLineAny(cfg, Flush(cfg, w));
  }
}
