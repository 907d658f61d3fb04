/** How a block that starts is kept apart from the text before it. */
module BlockSeparation {
  import opened Wrappers
  import opened CharClasses
  import opened LineLayout
  import opened ShownText
  import opened WantedText
  import opened Terminal
  import opened HeldText
  import opened HelpEvents
  import opened HelpRenderer

  predicate StartsBlock(ev: Event) {
    ev.StartParagraph? || ev.StartHeading? || ev.StartQuote? || ev.StartTitle? || ev.StartDefinition?
  }

  /** The text ends in no ink: what comes next stands apart from it. */
  predicate EndsApart(text: Page) {
    text.Snoc? && text.last.Char? ==> text.last.cell.c == ' '
  }

  /** Everything the writer holds, shown and buffered, with the word as if it ended here. */
  function Held(cfg: Config, w: Writer): Page {
    WordClosed(DraftOf(cfg, w, View(w.out)), Concat(w.segments)).text
  }

  lemma RunOneOrTwo(cfg: Config, w: Writer, a: Op, b: Op)
    ensures Run(cfg, w, Nil) == w && Run(cfg, w, Then(Nil, b)) == Step(cfg, w, b)
    ensures Run(cfg, w, Then(Then(Nil, a), b)) == Step(cfg, Step(cfg, w, a), b)
  {
    assert Run(cfg, w, Then(Nil, a)) == Step(cfg, Run(cfg, w, Nil), a);
  }

  lemma OneCharOfText(cfg: Config, w: Writer, c: char)
    requires !IsWhitespace(c)
    ensures Run(cfg, w, TextOps(Nil, [c])) == Step(cfg, w, AddChar(c))
  {
    assert [c][..0] == "";
    assert TextOps(Nil, [c][..0]) == Nil;
    RunOneOrTwo(cfg, w, FlushWord, AddChar(c));
  }

  /** What starting a block does to the writer. */
  lemma BlockStarts(cfg: Config, pal: Palette, r: Renderer, ev: Event)
    requires StartsBlock(ev) && !r.block.Code?
    ensures var r' := Handle(cfg, pal, r, ev);
            && r'.writer.word == r.writer.word && !r'.block.Code?
            && (if ev.StartHeading? || ev.StartTitle? then r'.writer.out == EndLine(cfg, r.writer).out
                else r'.writer.out == r.writer.out)
            && r'.writer.pending == r.writer.pending
  {
    RunOneOrTwo(cfg, r.writer, FinishBlock, PushStyle(if ev.StartHeading? then pal.heading else pal.term));
    RunOneOrTwo(cfg, r.writer, FlushWord, PushPrefix(if ev.StartQuote? then QUOTE_PREFIX else DEFINITION_INDENT));
    hide Run, TrimBlanks, Concat;
  }

  lemma {:induction false} LeadsApart(text: Page, s: string)
    requires EndsApart(text)
    ensures EndsApart(AddLeads(text, s))
  {
  }

  /** At a line start nothing but line ends and prefixes comes last. */
  lemma OpenedApart(cfg: Config, w: Writer, d: Draft)
    requires Inv(cfg, w) && !w.line.Open? && d.text == View(w.out) && d.place == PlaceOf(w.line)
    ensures EndsApart(LineOpened(d, Concat(w.segments)).text)
  {
    var prefix := Concat(w.segments);
    var text := if d.place.Parted? && d.text != Nil then Snoc(AddLeads(d.text, TrimEnd(d.place.prefix)), End)
                else d.text;
    assert EndsApart(text);
    LeadsApart(text, NextStart(d, prefix));
    hide AddLeads, Concat, TrimEnd;
  }

  lemma OpenedAlike(d: Draft, prefix: string, word: Rev<Cell>)
    ensures LineOpened(d.(word := word), prefix) == LineOpened(d, prefix).(word := word)
  {
  }

  lemma WordLast(text: Page, word: Rev<Cell>)
    requires EndsApart(text)
    ensures EndsApart(AddWord(text, word)) <==> word == Nil || word.last.c == ' '
  {
  }

  /** What comes before the word, buffered or about to start. */
  lemma WordPlaced(cfg: Config, w: Writer, cell: Cell)
    requires Inv(cfg, w) && (w.line.Open? ==> w.pending.Some?)
    ensures var w' := w.(word := Snoc(w.word, cell));
            && Held(cfg, w').Snoc? && Held(cfg, w').last == Char(Cell(cell.c, Mask(cfg, cell.attrs)))
            && (w.word != Nil ==> Held(cfg, w').init == Held(cfg, w))
            && (EndsApart(Held(cfg, w').init) <==> w.word == Nil || w.word.last.c == ' ')
  {
    var d := DraftOf(cfg, w.(word := Snoc(w.word, cell)), View(w.out));
    hide LineOpened, View, Concat, Mask;
    if !w.line.Open? {
      OpenedApart(cfg, w, d);
      OpenedAlike(DraftOf(cfg, w, View(w.out)), Concat(w.segments), d.word);
    }
    WordLast(if w.line.Open? then Snoc(d.text, Gap(d.space.value, NextStart(d, Concat(w.segments))))
             else LineOpened(d, Concat(w.segments)).text, MaskedWord(cfg, w.word));
  }

  /** The first character `c` of a block, and the text before it. A paragraph, quote or
      definition writes nothing in between, and a heading or title only ends the line. So the
      block is kept apart from that text exactly if no word is buffered, or one that ends
      in a blank. */
  lemma BlockApart(cfg: Config, pal: Palette, r: Renderer, ev: Event, c: char)
    requires RenderInv(cfg, r) && !r.block.Code? && StartsBlock(ev) && !IsWhitespace(c)
    ensures var w1 := Handle(cfg, pal, r, ev).writer;
            var w2 := Handle(cfg, pal, Handle(cfg, pal, r, ev), Text([c])).writer;
            && w1.out == (if ev.StartHeading? || ev.StartTitle? then EndLine(cfg, r.writer).out else r.writer.out)
            && Held(cfg, w2).Snoc? && Held(cfg, w2).last == Char(Cell(c, Mask(cfg, w2.desired)))
            && (r.writer.word != Nil ==> Held(cfg, w2).init == Held(cfg, w1))
            && (EndsApart(Held(cfg, w2).init) <==> r.writer.word == Nil || r.writer.word.last.c == ' ')
  {
    var r1 := Handle(cfg, pal, r, ev);
    BlockStarts(cfg, pal, r, ev);
    StartKeepsInv(cfg, pal, r, ev);
    CharHandled(cfg, pal, r1, c);
    hide Handle, Held, Inv, EndLine, Mask, IsWhitespace;
    WordPlaced(cfg, r1.writer, Cell(c, r1.writer.desired));
  }

  lemma StartKeepsInv(cfg: Config, pal: Palette, r: Renderer, ev: Event)
    requires RenderInv(cfg, r) && !r.block.Code? && StartsBlock(ev)
    ensures var w := Handle(cfg, pal, r, ev).writer;
            Inv(cfg, w) && (w.line.Open? ==> w.pending.Some?)
  {
    EventSound(cfg, pal, r, ev);
    hide Inv, Run, Ops;
  }

  /** With text buffered, the first word of the block continues the last one before it. */
  lemma BlocksRunTogether(cfg: Config, pal: Palette, r: Renderer, ev: Event, c: char)
    requires !r.block.Code? && StartsBlock(ev) && r.writer.word != Nil && !IsWhitespace(c)
    ensures var r' := Handle(cfg, pal, Handle(cfg, pal, r, ev), Text([c]));
            r'.writer.word.Snoc? && r'.writer.word.init == r.writer.word && r'.writer.word.last.c == c
  {
    BlockStarts(cfg, pal, r, ev);
    OneCharOfText(cfg, Handle(cfg, pal, r, ev).writer, c);
    hide Run, TextOps;
  }

  // ----- a quote in a tight list item -----

  lemma RunFour(cfg: Config, w: Writer, a: Op, b: Op, c: Op, d: Op)
    ensures Run(cfg, w, Then(Then(Then(Then(Nil, a), b), c), d))
            == Step(cfg, Step(cfg, Step(cfg, Step(cfg, w, a), b), c), d)
  {
    hide Step;
    RunOneOrTwo(cfg, w, a, b);
    assert Run(cfg, w, Then(Then(Then(Nil, a), b), c)) == Step(cfg, Run(cfg, w, Then(Then(Nil, a), b)), c);
  }

  /** Nothing is buffered and no line is open: the marker and the indentation are set. */
  lemma ItemStepped(cfg: Config, indent: string)
    ensures var w := Step(cfg, Step(cfg, EMPTY_WRITER, FlushWord), FinishLine);
            Step(cfg, Step(cfg, w, SetMarker("- ")), PushPrefix(indent))
            == EMPTY_WRITER.(nextOverride := Some("- "), segments := [indent])
  {
    assert Step(cfg, EMPTY_WRITER, FlushWord) == EMPTY_WRITER;
    assert Step(cfg, EMPTY_WRITER, FinishLine) == EMPTY_WRITER;
    assert Concat([]) + "- " == "- " && [] + [indent] == [indent];
  }

  lemma ItemStarts(cfg: Config, pal: Palette, r: Renderer)
    requires r.writer == EMPTY_WRITER && r.lists == [None] && r.block.Normal?
    ensures var r' := Handle(cfg, pal, r, StartItem);
            && r'.writer == EMPTY_WRITER.(nextOverride := Some("- "), segments := [Blanks(TextWidth(cfg, "- "))])
            && r'.block.Normal? && r'.lists == [None]
  {
    var indent := Blanks(TextWidth(cfg, "- "));
    hide Blanks, TextWidth, Run, Step, Ops;
    assert [] + [None] == r.lists;
    ItemStartOps(cfg, pal, r, [], None);
    RunFour(cfg, r.writer, FlushWord, FinishLine, SetMarker("- "), PushPrefix(indent));
    ItemStepped(cfg, indent);
  }

  /** A list item `- a` with a quote of `b` right below it: well nested, and one word `ab`. */
  lemma TightQuoteRunsOn(cfg: Config, pal: Palette)
    ensures var evs := Snoc(Snoc(Snoc(Snoc(Snoc(Snoc(Nil, StartList(None)), StartItem), Text("a")), StartQuote),
              StartParagraph), Text("b"));
            && WellNested(evs)
            && HandleAll(cfg, pal, START, evs).writer.word == Snoc(Snoc(Nil, Cell('a', PLAIN)), Cell('b', PLAIN))
  {
    var list := Snoc(Nil, StartList(None));
    var item := Snoc(list, StartItem);
    var text := Snoc(item, Text("a"));
    var quote := Snoc(text, StartQuote);
    var paragraph := Snoc(quote, StartParagraph);
    TightQuoteNests();
    NoWhitespaceHere();
    ListStarts(cfg, pal);
    hide IsWhitespace, ItemMarker, Blanks, TextWidth, Handle, WellNested;
    ItemStarts(cfg, pal, HandleAll(cfg, pal, START, list));
    CharHandled(cfg, pal, HandleAll(cfg, pal, START, item), 'a');
    HandleNext(cfg, pal, item, Text("a"));
    HandleNext(cfg, pal, text, StartQuote);
    HandleNext(cfg, pal, quote, StartParagraph);
    HandleNext(cfg, pal, paragraph, Text("b"));
    QuoteStarts(cfg, pal, HandleAll(cfg, pal, START, text));
    CharHandled(cfg, pal, HandleAll(cfg, pal, START, paragraph), 'b');
  }

  lemma HandleNext(cfg: Config, pal: Palette, evs: Rev<Event>, ev: Event)
    ensures HandleAll(cfg, pal, START, Snoc(evs, ev)) == Handle(cfg, pal, HandleAll(cfg, pal, START, evs), ev)
  {
  }

  lemma ListStarts(cfg: Config, pal: Palette)
    ensures HandleAll(cfg, pal, START, Snoc(Nil, StartList(None))) == START.(lists := [None])
  {
    assert HandleAll(cfg, pal, START, Nil) == START;
    assert Run(cfg, EMPTY_WRITER, Nil) == EMPTY_WRITER;
    assert START.lists + [None] == [None];
  }

  lemma CharHandled(cfg: Config, pal: Palette, r: Renderer, c: char)
    requires !r.block.Code? && !IsWhitespace(c)
    ensures Handle(cfg, pal, r, Text([c]))
            == r.(writer := r.writer.(word := Snoc(r.writer.word, Cell(c, r.writer.desired))))
  {
    OneCharOfText(cfg, r.writer, c);
    hide Run, TextOps, IsWhitespace;
  }

  lemma QuoteStarts(cfg: Config, pal: Palette, r: Renderer)
    ensures var r' := Handle(cfg, pal, Handle(cfg, pal, r, StartQuote), StartParagraph);
            r'.writer == r.writer.(segments := r.writer.segments + [QUOTE_PREFIX]) && r'.block == r.block
  {
    RunOneOrTwo(cfg, r.writer, FlushWord, PushPrefix(QUOTE_PREFIX));
    RunOneOrTwo(cfg, Step(cfg, r.writer, PushPrefix(QUOTE_PREFIX)), FlushWord, FlushWord);
    hide Run;
  }

  lemma NoWhitespaceHere()
    ensures !IsWhitespace('a') && !IsWhitespace('b')
  {
  }

  lemma NestsNext(evs: Rev<Event>, ev: Event)
    requires WellNested(evs) && NestsWell(TagsAfter(evs), ev)
    ensures WellNested(Snoc(evs, ev)) && TagsAfter(Snoc(evs, ev)) == NextTags(TagsAfter(evs), ev)
  {
    hide NestsWell, NextTags;
  }

  lemma TightQuoteNests()
    ensures WellNested(Snoc(Snoc(Snoc(Snoc(Snoc(Snoc(Nil, StartList(None)), StartItem), Text("a")), StartQuote),
              StartParagraph), Text("b")))
  {
    var list := Snoc(Nil, StartList(None));
    var item := Snoc(list, StartItem);
    var text := Snoc(item, Text("a"));
    var quote := Snoc(text, StartQuote);
    var paragraph := Snoc(quote, StartParagraph);
    TagsInItem();
    assert WellNested(Nil) && TagsAfter(Nil) == Nil;
    hide WellNested, TagsAfter, Proper, InCode, ItemMarker;
    NestsNext(Nil, StartList(None));
    NestsNext(list, StartItem);
    NestsNext(item, Text("a"));
    NestsNext(text, StartQuote);
    NestsNext(quote, StartParagraph);
    NestsNext(paragraph, Text("b"));
  }

  lemma TagsInItem()
    ensures var item := Snoc(Snoc(Nil, List(None)), Item(ItemMarker(None)));
            && Proper(Snoc(Nil, List(None))) && Proper(Snoc(item, Quote)) && Proper(Snoc(Snoc(item, Quote), Paragraph))
            && !InCode(item) && !InCode(Snoc(Snoc(item, Quote), Paragraph))
  {
    var item := Snoc(Snoc(Nil, List(None)), Item(ItemMarker(None)));
    hide ItemMarker;
    assert Proper(Snoc(Nil, List(None))) && Proper(item);
    assert !InCode(Snoc(Nil, List(None))) && !InTitle(Snoc(Nil, List(None)));
    assert !InCode(item) && !InTitle(item);
    assert !InCode(Snoc(item, Quote)) && !InTitle(Snoc(item, Quote));
  }
}
