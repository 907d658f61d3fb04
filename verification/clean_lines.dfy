/** What it takes for the lines of a document to end without blanks. */
module CleanLines {
  import opened Wrappers
  import opened LineLayout
  import opened ShownText
  import opened WantedText
  import opened Terminal
  import opened HeldText
  import opened HelpEvents
  import opened HelpRenderer
  import opened LineWriting
  import opened TrailingBlanks

  // ----- lines of code -----

  predicate HasInk(s: string) {
    exists i | 0 <= i < |s| :: s[i] != ' '
  }

  /** The tail after a run of text that is shown in one way. */
  lemma {:induction false} RunTail(cfg: Config, tail: set<Attrs>, s: string, attrs: Attrs)
    ensures WordTail(cfg, tail, AppendCells(Nil, s, attrs)) ==
            if s == "" then tail
            else if s[|s| - 1] != ' ' then {}
            else if HasInk(s) then {Mask(cfg, attrs)}
            else tail + {Mask(cfg, attrs)}
  {
    if s != "" {
      var n := |s| - 1;
      RunTail(cfg, tail, s[..n], attrs);
      assert HasInk(s[..n]) ==> HasInk(s);
      assert forall i | 0 <= i < n :: s[i] == s[..n][i];
      hide Mask;
    }
  }

  /** A line of code, for whatever prefix the line has: it ends without blanks exactly if
      the code has ink, or no style is on, or the prefix does not end in a blank. */
  lemma CodeLineExact(cfg: Config, w: Writer, s: string)
    requires Inv(cfg, w) && Neat(w.out) && w.word == Nil && !w.line.Open? && s != "" && '\n' !in s
    ensures var out := Step(cfg, Run(cfg, w, VerbatimOps(Nil, s)), AddVerbatim('\n')).out;
            var styled := cfg.color && w.desired.styles != [];
            var prefix := NextPrefix(w);
            NoTrailingBlank(out) <==>
            NoTrailingBlank(w.out) && (HasInk(s) || !styled || prefix == "" || prefix[|prefix| - 1] != ' ')
  {
    hide Neat, NoTrailingBlank, Tail, VerbatimOps, Run, PutAll, HasInk, NextPrefix, OpenLine, EndLine;
    var attrs := VerbatimAttrs(w);
    var cells := AppendCells(Nil, s, attrs);
    VerbatimLine(cfg, w, s);
    OpenLineNeat(cfg, w);
    OpenLineFacts(cfg, w);
    PutAllNeat(cfg, OpenLine(cfg, w), cells, Verbatim);
    RunTail(cfg, PrefixTail(NextPrefix(w)), s, attrs);
    CodeTailAlike(cfg, NextPrefix(w), attrs);
    var w1 := Run(cfg, w, VerbatimOps(Nil, s));
    AlreadyOpen(cfg, w1);
    EndLineExact(cfg, w1);
    LastIsInk(s);
    hide Alike, PrefixTail, WordTail;
  }

  lemma AlreadyOpen(cfg: Config, w: Writer)
    requires w.line.Open?
    ensures OpenLine(cfg, w) == w
  {
  }

  lemma LastIsInk(s: string)
    requires s != ""
    ensures s[|s| - 1] != ' ' ==> HasInk(s)
  {
  }

  lemma CodeTailAlike(cfg: Config, prefix: string, attrs: Attrs)
    requires attrs.link == None
    ensures Alike({}) && Alike({Mask(cfg, attrs)})
    ensures Alike(PrefixTail(prefix) + {Mask(cfg, attrs)}) <==>
            !(cfg.color && attrs.styles != []) || prefix == "" || prefix[|prefix| - 1] != ' '
  {
    assert Mask(cfg, attrs) in PrefixTail(prefix) + {Mask(cfg, attrs)};
    assert prefix != "" && prefix[|prefix| - 1] == ' ' ==> PLAIN in PrefixTail(prefix) + {Mask(cfg, attrs)};
  }

  // ----- lines of words -----

  /** A line that ends after a word: it ends without blanks exactly if the blanks at the
      end, of the word and of what is before it on the line, are shown alike. */
  lemma WordLineExact(cfg: Config, w: Writer)
    requires Inv(cfg, w) && Neat(w.out) && FlushReady(w) && w.word != Nil
    ensures NoTrailingBlank(EndLine(cfg, Flush(cfg, w)).out) <==>
            NoTrailingBlank(w.out) && (Wraps(cfg, w) ==> Alike(Tail(w.out))) && Alike(FlushedTail(cfg, w))
  {
    hide Neat, NoTrailingBlank, Tail, Alike, FlushedTail, Wraps, Flush;
    FlushExact(cfg, w);
    FlushInv(cfg, w);
    EndLineExact(cfg, Flush(cfg, w));
  }

  /** A word of blanks, such as a link around a blank code span, on a line that has ink and
      a space in front of it: the line ends without blanks exactly if the blanks and that
      space are shown alike. */
  lemma BlankWordExact(cfg: Config, w: Writer, s: string, attrs: Attrs)
    requires Inv(cfg, w) && Neat(w.out) && NoTrailingBlank(w.out)
    requires w.line.Open? && !EndsBlank(w.out) && LastRole(w.out, Word) && w.pending.Some? && !Wraps(cfg, w)
    requires s != "" && !HasInk(s) && w.word == AppendCells(Nil, s, attrs)
    ensures NoTrailingBlank(EndLine(cfg, Flush(cfg, w)).out) <==> Mask(cfg, attrs) == Mask(cfg, w.pending.value)
  {
    var space, blank := Mask(cfg, w.pending.value), Mask(cfg, attrs);
    TailEndsShown(w.out);
    RunTail(cfg, {space}, s, attrs);
    WordLineExact(cfg, w);
    LastIsInk(s);
    assert {} + {space} == {space};
    assert space in {space} + {blank} && blank in {space} + {blank};
    hide Neat, NoTrailingBlank, Tail, Mask, EndLine, Flush;
  }

  // ----- whole documents -----

  /** Every line that the events end has its last blanks shown alike. */
  predicate StreamEndsAlike(cfg: Config, pal: Palette, evs: Rev<Event>) {
    match evs
    case Nil => true
    case Snoc(init, ev) =>
      var r := HandleAll(cfg, pal, START, init);
      StreamEndsAlike(cfg, pal, init) && LinesEndAlike(cfg, r.writer, Ops(cfg, pal, r, ev))
  }

  lemma {:induction false} StreamExact(cfg: Config, pal: Palette, evs: Rev<Event>)
    requires WellNested(evs)
    ensures var w := HandleAll(cfg, pal, START, evs).writer;
            Neat(w.out) && (NoTrailingBlank(w.out) <==> StreamEndsAlike(cfg, pal, evs))
  {
    match evs
    case Nil =>
    case Snoc(init, ev) =>
      var r := HandleAll(cfg, pal, START, init);
      StreamExact(cfg, pal, init);
      StreamTracked(cfg, pal, init);
      EventTracked(cfg, pal, r, TagsAfter(init), WantAll(cfg, pal, init), ev);
      EventSound(cfg, pal, r, ev);
      RunExact(cfg, r.writer, Ops(cfg, pal, r, ev));
      hide Tracks, Neat, NoTrailingBlank, LinesEndAlike, Run, Ops, TagsAfter, WantAll, NestsWell;
  }

  /** No line of the finished output ends in a blank, exactly if at every line end the
      blanks before it are shown alike. */
  lemma RenderedExact(cfg: Config, pal: Palette, evs: Rev<Event>)
    requires WellNested(evs) && !InCode(TagsAfter(evs))
    ensures NoTrailingBlank(Rendered(cfg, pal, evs)) <==>
            StreamEndsAlike(cfg, pal, evs) && LastLinesEndAlike(cfg, HandleAll(cfg, pal, START, evs).writer)
  {
    StreamExact(cfg, pal, evs);
    StreamTracked(cfg, pal, evs);
    hide HandleAll, TagsAfter, WantAll, WellNested, Shows, Holds, Neat, NoTrailingBlank, LastLinesEndAlike,
         StreamEndsAlike;
    FinishExact(cfg, HandleAll(cfg, pal, START, evs).writer);
  }

  // ----- without color and hyperlinks -----

  predicate NoEscapes(out: Rev<Item>) {
    out.Snoc? ==> (out.last.Glyph? || out.last.Newline?) && NoEscapes(out.init)
  }

  lemma {:induction false} PlainTail(out: Rev<Item>)
    requires NoEscapes(out)
    ensures Shown(out) == PLAIN && Tail(out) <= {PLAIN} && Alike(Tail(out))
  {
    if out.Snoc? {
      PlainTail(out.init);
    }
  }

  lemma {:induction false} PrefixNoEscapes(out: Rev<Item>, s: string)
    requires NoEscapes(out)
    ensures NoEscapes(PrefixText(out, s))
  {
    if s != "" {
      PrefixNoEscapes(out, s[..|s| - 1]);
    }
  }

  lemma {:induction false} TrimNoEscapes(out: Rev<Item>)
    requires NoEscapes(out)
    ensures NoEscapes(TrimBlanks(out))
  {
    if out.Snoc? {
      TrimNoEscapes(out.init);
    }
  }

  lemma {:induction false} PutAllNoEscapes(cfg: Config, w: Writer, cells: Rev<Cell>, role: Role)
    requires !cfg.color && !cfg.hyperlinks && NoEscapes(w.out)
    ensures NoEscapes(PutAll(cfg, w, cells, role).out)
  {
    if cells.Snoc? {
      PutAllNoEscapes(cfg, w, cells.init, role);
    }
  }

  lemma OpenLineNoEscapes(cfg: Config, w: Writer)
    requires NoEscapes(w.out)
    ensures NoEscapes(OpenLine(cfg, w).out)
  {
    hide PrefixText, Concat, TrimEnd;
    var out := w.out;
    if w.line.AfterBlock? && w.out != Nil {
      PrefixNoEscapes(w.out, TrimEnd(w.line.prefix));
      out := Snoc(PrefixText(w.out, TrimEnd(w.line.prefix)), Newline);
    }
    PrefixNoEscapes(out, NextPrefix(w));
  }

  lemma EndLineNoEscapes(cfg: Config, w: Writer)
    requires !cfg.color && NoEscapes(w.out) && (w.line.Open? ==> w.line.emitted.link == None)
    ensures NoEscapes(EndLine(cfg, w).out)
  {
    TrimNoEscapes(w.out);
    hide TrimBlanks;
  }

  lemma FlushNoEscapes(cfg: Config, w: Writer)
    requires !cfg.color && !cfg.hyperlinks && NoEscapes(w.out) && (w.line.Open? ==> w.line.emitted.link == None)
    ensures NoEscapes(Flush(cfg, w).out)
  {
    hide NoEscapes, EndLine, OpenLine, WordWidth;
    var w0 := w.(pending := None, word := Nil);
    EndLineNoEscapes(cfg, w0);
    OpenLineNoEscapes(cfg, w0);
    OpenLineNoEscapes(cfg, EndLine(cfg, w0));
    PutAllNoEscapes(cfg, w0, w.word, Word);
    PutAllNoEscapes(cfg, OpenLine(cfg, w0), w.word, Word);
    PutAllNoEscapes(cfg, OpenLine(cfg, EndLine(cfg, w0)), w.word, Word);
    if w.line.Open? && w.pending.Some? {
      var cell := Cell(' ', w.pending.value);
      PutOneNoEscapes(cfg, w0, cell, Space);
      PutAllNoEscapes(cfg, Put(cfg, w0, cell, Space), w.word, Word);
    }
  }

  lemma PutOneNoEscapes(cfg: Config, w: Writer, cell: Cell, role: Role)
    requires !cfg.color && !cfg.hyperlinks && NoEscapes(w.out)
    ensures NoEscapes(Put(cfg, w, cell, role).out)
  {
  }

  lemma StepNoEscapes(cfg: Config, w: Writer, op: Op)
    requires !cfg.color && !cfg.hyperlinks && NoEscapes(w.out) && Inv(cfg, w)
    ensures NoEscapes(Step(cfg, w, op).out) && LineEndsAlike(cfg, w, op)
  {
    assert w.line.Open? ==> w.line.emitted.link == None;
    PlainTail(w.out);
    hide NoEscapes, Inv, Flush, EndLine, OpenLine, Tail, Alike;
    FlushNoEscapes(cfg, w);
    EndLineNoEscapes(cfg, w);
    if op.AddVerbatim? {
      CodeNoEscapes(cfg, w, op.c);
    }
  }

  lemma CodeNoEscapes(cfg: Config, w: Writer, c: char)
    requires !cfg.color && !cfg.hyperlinks && NoEscapes(w.out) && (w.line.Open? ==> w.line.emitted.link == None)
    ensures NoEscapes(Step(cfg, w, AddVerbatim(c)).out) && LineEndsAlike(cfg, w, AddVerbatim(c))
  {
    var w1 := OpenLine(cfg, w);
    assert w1.line.emitted.link == None;
    hide NoEscapes, EndLine, OpenLine, Tail, Alike;
    OpenLineNoEscapes(cfg, w);
    PlainTail(w1.out);
    EndLineNoEscapes(cfg, w1);
    PutOneNoEscapes(cfg, w1, Cell(c, Attrs(w.desired.styles, None)), Verbatim);
  }

  lemma {:induction false} RunNoEscapes(cfg: Config, w: Writer, ops: Rev<Op>)
    requires !cfg.color && !cfg.hyperlinks && NoEscapes(w.out) && Inv(cfg, w) && AllReady(cfg, w, ops)
    ensures Inv(cfg, Run(cfg, w, ops)) && NoEscapes(Run(cfg, w, ops).out) && LinesEndAlike(cfg, w, ops)
  {
    match ops
    case Nil =>
    case Snoc(init, op) =>
      RunNoEscapes(cfg, w, init);
      StepInv(cfg, Run(cfg, w, init), op);
      StepNoEscapes(cfg, Run(cfg, w, init), op);
      hide Inv, Ready, NoEscapes, LineEndsAlike;
  }

  lemma {:induction false} StreamNoEscapes(cfg: Config, pal: Palette, evs: Rev<Event>)
    requires !cfg.color && !cfg.hyperlinks && WellNested(evs)
    ensures NoEscapes(HandleAll(cfg, pal, START, evs).writer.out) && StreamEndsAlike(cfg, pal, evs)
  {
    match evs
    case Nil =>
    case Snoc(init, ev) =>
      var r := HandleAll(cfg, pal, START, init);
      StreamNoEscapes(cfg, pal, init);
      StreamTracked(cfg, pal, init);
      EventTracked(cfg, pal, r, TagsAfter(init), WantAll(cfg, pal, init), ev);
      EventSound(cfg, pal, r, ev);
      RunNoEscapes(cfg, r.writer, Ops(cfg, pal, r, ev));
      hide Tracks, NoEscapes, LinesEndAlike, Run, Ops, TagsAfter, WantAll, NestsWell;
  }

  /** Without color and hyperlinks no line ends in a blank, whatever the document. */
  lemma PlainOutputIsClean(cfg: Config, pal: Palette, evs: Rev<Event>)
    requires !cfg.color && !cfg.hyperlinks && WellNested(evs) && !InCode(TagsAfter(evs))
    ensures NoTrailingBlank(Rendered(cfg, pal, evs))
  {
    var w := HandleAll(cfg, pal, START, evs).writer;
    StreamNoEscapes(cfg, pal, evs);
    StreamTracked(cfg, pal, evs);
    RenderedExact(cfg, pal, evs);
    hide HandleAll, TagsAfter, WantAll, WellNested, Shows, Holds, NoEscapes, NoTrailingBlank, StreamEndsAlike, Rendered,
         Flush, Tail, Alike;
    PlainTail(w.out);
    FlushNoEscapes(cfg, w);
    PlainTail(Flush(cfg, w).out);
  }

  // ----- with hyperlinks -----

  /** The start of a paragraph: `a`, a space, and a link around inline code of one blank. */
  function LinkedBlank(url: string): Rev<Event> {
    Snoc(Snoc(Snoc(Snoc(Snoc(Nil, StartParagraph), Text("a ")), StartLink(Some(url))), CodeSpan(" ")), EndLink)
  }

  lemma LinkedBlankNests(url: string)
    ensures WellNested(LinkedBlank(url)) && TagsAfter(LinkedBlank(url)) == Snoc(Nil, Paragraph)
    ensures WellNested(Snoc(LinkedBlank(url), EndParagraph)) && TagsAfter(Snoc(LinkedBlank(url), EndParagraph)) == Nil
  {
    var start := Snoc(Nil, StartParagraph);
    var text := Snoc(start, Text("a "));
    var link := Snoc(text, StartLink(Some(url)));
    var code := Snoc(link, CodeSpan(" "));
    assert TagsAfter(start) == Snoc(Nil, Paragraph) && WellNested(start);
    assert TagsAfter(text) == Snoc(Nil, Paragraph) && WellNested(text);
    assert TagsAfter(link) == Snoc(Snoc(Nil, Paragraph), Link(Some(url))) && WellNested(link);
    assert TagsAfter(code) == TagsAfter(link) && WellNested(code);
    assert TagsAfter(Snoc(code, EndLink)) == Snoc(Nil, Paragraph);
  }

  lemma FirstWord(cfg: Config)
    ensures Step(cfg, Step(cfg, EMPTY_WRITER, AddChar('a')), AddSpace)
            == Writer(Snoc(Nil, Glyph('a', Word)), [], None, Open(cfg.charWidth('a'), PLAIN), Nil, Some(PLAIN), PLAIN)
  {
    var w := Step(cfg, EMPTY_WRITER, AddChar('a'));
    var w0 := w.(pending := None, word := Nil);
    assert Concat([]) == "" && PrefixText(Nil, "") == Nil && TextWidth(cfg, "") == 0;
    var w1 := OpenLine(cfg, w0);
    assert w1 == w0.(line := Open(0, PLAIN));
    assert PutAll(cfg, w1, Nil, Word) == w1;
    assert w.word == Snoc(Nil, Cell('a', PLAIN));
    assert PutAll(cfg, w1, w.word, Word) == Put(cfg, w1, Cell('a', PLAIN), Word);
  }

  lemma TextHandled(cfg: Config, pal: Palette)
    ensures HandleAll(cfg, pal, START, Snoc(Snoc(Nil, StartParagraph), Text("a ")))
            == START.(writer := Step(cfg, Step(cfg, EMPTY_WRITER, AddChar('a')), AddSpace))
  {
    hide Flush;
    assert HandleAll(cfg, pal, START, Nil) == START && Run(cfg, EMPTY_WRITER, Nil) == EMPTY_WRITER;
    assert HandleAll(cfg, pal, START, Snoc(Nil, StartParagraph)) == START;
    assert "a "[..1] == "a" && "a"[..0] == "";
    assert TextOps(Nil, "a") == Then(TextOps(Nil, ""), AddChar('a'));
    assert TextOps(Nil, "a ") == Then(Then(Nil, AddChar('a')), AddSpace);
    assert Run(cfg, EMPTY_WRITER, Then(Nil, AddChar('a'))) == Step(cfg, EMPTY_WRITER, AddChar('a'));
  }

  lemma LinkHandled(cfg: Config, pal: Palette, r: Renderer, url: string)
    requires cfg.hyperlinks && r.block.Normal? && r.writer.desired == PLAIN && r.writer.word == Nil
    ensures var r1 := Handle(cfg, pal, r, StartLink(Some(url)));
            var r2 := Handle(cfg, pal, r1, CodeSpan(" "));
            Handle(cfg, pal, r2, EndLink).writer
            == r.writer.(word := Snoc(Nil, Cell(' ', Attrs([pal.link, pal.code], Some(url)))))
  {
    var r1 := Handle(cfg, pal, r, StartLink(Some(url)));
    LinkStarts(cfg, pal, r, url);
    BlankCodeHandled(cfg, pal, r1);
    LinkEnds(cfg, pal, Handle(cfg, pal, r1, CodeSpan(" ")));
    hide Handle;
    assert PopLast([pal.link]) == [] && [pal.link] + [pal.code] == [pal.link, pal.code];
  }

  lemma LinkStarts(cfg: Config, pal: Palette, r: Renderer, url: string)
    requires cfg.hyperlinks && r.writer.desired == PLAIN
    ensures var r' := Handle(cfg, pal, r, StartLink(Some(url)));
            r'.writer == r.writer.(desired := Attrs([pal.link], Some(url))) && r'.block == r.block
  {
    assert Run(cfg, r.writer, Nil) == r.writer;
    assert Run(cfg, r.writer, Then(Nil, PushStyle(pal.link))) == Step(cfg, r.writer, PushStyle(pal.link));
    assert [] + [pal.link] == [pal.link];
  }

  lemma BlankCodeHandled(cfg: Config, pal: Palette, r: Renderer)
    requires r.block.Normal?
    ensures var attrs := Attrs(r.writer.desired.styles + [pal.code], r.writer.desired.link);
            Handle(cfg, pal, r, CodeSpan(" ")).writer == r.writer.(word := Snoc(r.writer.word, Cell(' ', attrs)))
  {
    var push := Then(Nil, PushStyle(pal.code));
    assert " "[..0] == "";
    assert AddChars(push, " ") == Then(AddChars(push, ""), AddChar(' '));
    assert Run(cfg, r.writer, Nil) == r.writer;
    assert Run(cfg, r.writer, push) == Step(cfg, r.writer, PushStyle(pal.code));
    assert Run(cfg, r.writer, Then(push, AddChar(' '))) == Step(cfg, Run(cfg, r.writer, push), AddChar(' '));
    assert PopLast(r.writer.desired.styles + [pal.code]) == r.writer.desired.styles;
  }

  lemma LinkEnds(cfg: Config, pal: Palette, r: Renderer)
    requires cfg.hyperlinks && r.writer.desired.link.Some?
    ensures Handle(cfg, pal, r, EndLink).writer == r.writer.(desired := Attrs(PopLast(r.writer.desired.styles), None))
  {
    assert Run(cfg, r.writer, Nil) == r.writer;
    assert Run(cfg, r.writer, Then(Nil, SetLink(None))) == Step(cfg, r.writer, SetLink(None));
    hide PopLast;
  }

  lemma ParagraphEnds(cfg: Config, pal: Palette, r: Renderer)
    ensures var w := Handle(cfg, pal, r, EndParagraph).writer;
            Finish(cfg, w) == EndLine(cfg, Flush(cfg, r.writer)).out
  {
    assert Run(cfg, r.writer, Nil) == r.writer;
    assert Run(cfg, r.writer, Then(Nil, FlushWord)) == Flush(cfg, r.writer);
    FlushedEmpty(cfg, r.writer);
    hide Run, Concat, TrimBlanks;
  }

  lemma FlushedEmpty(cfg: Config, w: Writer)
    ensures EndLine(cfg, Flush(cfg, w)).word == Nil
  {
    var w0 := w.(pending := None, word := Nil);
    PutAllWord(cfg, w0, w.word);
    PutAllWord(cfg, OpenLine(cfg, w0), w.word);
    PutAllWord(cfg, OpenLine(cfg, EndLine(cfg, w0)), w.word);
    if w.pending.Some? {
      PutAllWord(cfg, Put(cfg, w0, Cell(' ', w.pending.value), Space), w.word);
    }
    hide PutAll, PrefixText, Concat, TrimBlanks, Sync, WordWidth;
  }

  lemma {:induction false} PutAllWord(cfg: Config, w: Writer, cells: Rev<Cell>)
    ensures PutAll(cfg, w, cells, Word).word == w.word
  {
    if cells.Snoc? {
      PutAllWord(cfg, w, cells.init);
    }
  }

  /** A document whose line ends in a blank, with hyperlinks and without color. */
  lemma LinkedBlankKeepsSpace(cfg: Config, pal: Palette, url: string)
    requires !cfg.color && cfg.hyperlinks && cfg.charWidth('a') + 2 <= cfg.width
    ensures var evs := Snoc(LinkedBlank(url), EndParagraph);
            WellNested(evs) && TagsAfter(evs) == Nil && !NoTrailingBlank(Rendered(cfg, pal, evs))
  {
    hide HandleAll, Flush, EndLine, NoTrailingBlank, Handle, Rendered, WellNested, TagsAfter, WantAll, Tracks;
    var evs := LinkedBlank(url);
    LinkedBlankNests(url);
    LinkedBlankHandled(cfg, pal, url);
    StreamTracked(cfg, pal, evs);
    LinkedBlankTracked(cfg, pal, HandleAll(cfg, pal, START, evs), TagsAfter(evs), WantAll(cfg, pal, evs), url);
    ParagraphEnds(cfg, pal, HandleAll(cfg, pal, START, evs));
    RenderedNext(cfg, pal, evs, EndParagraph);
  }

  /** The writer once the link has ended: `a` is written, and the blank is buffered. */
  function LinkedBlankWriter(cfg: Config, pal: Palette, url: string): Writer {
    Writer(Snoc(Nil, Glyph('a', Word)), [], None, Open(cfg.charWidth('a'), PLAIN),
           Snoc(Nil, Cell(' ', Attrs([pal.link, pal.code], Some(url)))), Some(PLAIN), PLAIN)
  }

  lemma LinkedBlankHandled(cfg: Config, pal: Palette, url: string)
    requires cfg.hyperlinks
    ensures HandleAll(cfg, pal, START, LinkedBlank(url)).writer == LinkedBlankWriter(cfg, pal, url)
  {
    var text := Snoc(Snoc(Nil, StartParagraph), Text("a "));
    TextHandled(cfg, pal);
    FirstWord(cfg);
    hide HandleAll, Step, Handle;
    LinkHandled(cfg, pal, HandleAll(cfg, pal, START, text), url);
    HandleLinked(cfg, pal, url);
  }

  lemma LinkedBlankTracked(cfg: Config, pal: Palette, r: Renderer, tags: Tags, d: Draft, url: string)
    requires !cfg.color && cfg.hyperlinks && cfg.charWidth('a') + 2 <= cfg.width
    requires Tracks(cfg, pal, r, tags, d) && r.writer == LinkedBlankWriter(cfg, pal, url)
    ensures !NoTrailingBlank(EndLine(cfg, Flush(cfg, r.writer)).out)
  {
    var attrs := Attrs([pal.link, pal.code], Some(url));
    hide EndLine, Flush, NoTrailingBlank, Inv, Neat, Shows, Proper, StylesOf, SegmentsOf;
    assert " "[..0] == "" && AppendCells(Nil, "", attrs) == Nil;
    assert AppendCells(Nil, " ", attrs) == Snoc(Nil, Cell(' ', attrs));
    OneCellWidth(cfg, Cell(' ', attrs));
    OneGlyph();
    BlankWordExact(cfg, r.writer, " ", attrs);
  }

  lemma RenderedNext(cfg: Config, pal: Palette, evs: Rev<Event>, ev: Event)
    ensures Rendered(cfg, pal, Snoc(evs, ev))
            == Finish(cfg, Handle(cfg, pal, HandleAll(cfg, pal, START, evs), ev).writer)
  {
    hide Finish, Handle;
  }

  lemma OneCellWidth(cfg: Config, cell: Cell)
    ensures WordWidth(cfg, Snoc(Nil, cell)) == cfg.charWidth(cell.c)
  {
    assert WordWidth(cfg, Nil) == 0;
  }

  lemma OneGlyph()
    ensures var out := Snoc(Nil, Glyph('a', Word));
            Neat(out) && NoTrailingBlank(out) && !EndsBlank(out) && LastRole(out, Word)
  {
  }

  lemma HandleLinked(cfg: Config, pal: Palette, url: string)
    ensures HandleAll(cfg, pal, START, LinkedBlank(url)) ==
            var text := Snoc(Snoc(Nil, StartParagraph), Text("a "));
            var r1 := Handle(cfg, pal, HandleAll(cfg, pal, START, text), StartLink(Some(url)));
            Handle(cfg, pal, Handle(cfg, pal, r1, CodeSpan(" ")), EndLink)
  {
    hide Handle;
    var text := Snoc(Snoc(Nil, StartParagraph), Text("a "));
    var link := Snoc(text, StartLink(Some(url)));
    assert HandleAll(cfg, pal, START, link) == Handle(cfg, pal, HandleAll(cfg, pal, START, text), StartLink(Some(url)));
    var code := Snoc(link, CodeSpan(" "));
    assert HandleAll(cfg, pal, START, code) == Handle(cfg, pal, HandleAll(cfg, pal, START, link), CodeSpan(" "));
  }
}
