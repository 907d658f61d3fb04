/** Documents whose output has no line that ends in a blank, and one that has. */
module CleanStreams {
  import opened Wrappers
  import opened LineLayout
  import opened ShownText
  import opened WantedText
  import opened Terminal
  import opened HelpEvents
  import opened HelpRenderer
  import opened LineWriting
  import opened TrailingBlanks
  import opened CleanLines

  // ----- a condition on the events -----

  predicate EndsInInk(s: string) {
    s == "" || s[|s| - 1] != ' '
  }

  predicate EmptyOrInked(line: string) {
    line == "" || HasInk(line)
  }

  /** The line of code that is open after more code. */
  function CodeLine(line: string, s: string): string {
    if s == "" then line
    else if s[|s| - 1] == '\n' then ""
    else CodeLine(line, s[..|s| - 1]) + [s[|s| - 1]]
  }

  predicate LinesInked(line: string, s: string) {
    s == "" || (LinesInked(line, s[..|s| - 1]) && (s[|s| - 1] == '\n' ==> EmptyOrInked(CodeLine(line, s[..|s| - 1]))))
  }

  /** The line of code that is open after the events. */
  function LineSoFar(evs: Rev<Event>): string {
    match evs
    case Nil => ""
    case Snoc(init, ev) => if ev.Text? && InCode(TagsAfter(init)) then CodeLine(LineSoFar(init), ev.text) else ""
  }

  /** Inline code ends in ink, and each line of code is empty or has some. */
  predicate Inky(evs: Rev<Event>) {
    match evs
    case Nil => true
    case Snoc(init, ev) =>
      && Inky(init)
      && (ev.CodeSpan? ==> EndsInInk(ev.code))
      && (ev.Text? && InCode(TagsAfter(init)) ==> LinesInked(LineSoFar(init), ev.text))
      && (ev.EndCode? ==> EmptyOrInked(LineSoFar(init)))
  }

  // ----- words that end in ink -----

  /** The word ends in ink, and so does the open line. */
  ghost predicate InkInv(w: Writer) {
    (w.word != Nil ==> w.word.last.c != ' ') && (w.line.Open? ==> Tail(w.out) == {})
  }

  lemma EmptyAlike()
    ensures Alike({})
  {
  }

  lemma FlushInky(cfg: Config, w: Writer)
    requires Inv(cfg, w) && FlushReady(w) && Neat(w.out) && InkInv(w)
    ensures InkInv(Flush(cfg, w)) && (Wraps(cfg, w) ==> Alike(Tail(w.out)))
  {
    hide Neat, NoTrailingBlank, Tail, Inv, Wraps, PrefixTail, NextPrefix;
    EmptyAlike();
    WrapsOpen(cfg, w);
    if w.word != Nil {
      FlushExact(cfg, w);
      FlushInv(cfg, w);
      hide Flush;
    }
  }

  lemma WrapsOpen(cfg: Config, w: Writer)
    ensures Wraps(cfg, w) ==> w.line.Open?
  {
  }

  /** No blank joins a word, and no code is written. */
  predicate Calm(op: Op) {
    (op.AddChar? ==> op.c != ' ') && !op.AddVerbatim?
  }

  predicate AllCalm(ops: Rev<Op>) {
    ops.Snoc? ==> Calm(ops.last) && AllCalm(ops.init)
  }

  lemma StepInky(cfg: Config, w: Writer, op: Op)
    requires Inv(cfg, w) && Ready(w, op) && Neat(w.out) && InkInv(w) && Calm(op)
    ensures InkInv(Step(cfg, w, op)) && LineEndsAlike(cfg, w, op)
  {
    hide Tail, Flush, EndLine, Alike, Wraps, Neat, Concat;
    EmptyAlike();
    if op.AddSpace? || op.FlushWord? {
      FlushInky(cfg, w);
    } else if op.FinishLine? || op.FinishBlock? {
      EndLineAny(cfg, w);
    }
    hide Inv;
  }

  lemma {:induction false} RunInky(cfg: Config, w: Writer, ops: Rev<Op>)
    requires Inv(cfg, w) && AllReady(cfg, w, ops) && Neat(w.out) && InkInv(w) && AllCalm(ops)
    ensures Inv(cfg, Run(cfg, w, ops)) && Neat(Run(cfg, w, ops).out) && InkInv(Run(cfg, w, ops))
    ensures LinesEndAlike(cfg, w, ops)
  {
    if ops.Snoc? {
      RunInky(cfg, w, ops.init);
      RunExact(cfg, w, ops);
      StepInky(cfg, Run(cfg, w, ops.init), ops.last);
      hide Inv, Neat, InkInv, Step, LineEndsAlike, NoTrailingBlank;
    }
  }

  lemma {:induction false} TextCalm(ops: Rev<Op>, s: string)
    requires AllCalm(ops)
    ensures AllCalm(TextOps(ops, s))
  {
    if s != "" {
      TextCalm(ops, s[..|s| - 1]);
    }
  }

  /** Characters that join the word end no line. */
  lemma {:induction false} CharsEndNothing(cfg: Config, w: Writer, ops: Rev<Op>, s: string)
    requires LinesEndAlike(cfg, w, ops)
    ensures LinesEndAlike(cfg, w, AddChars(ops, s))
  {
    if s != "" {
      CharsEndNothing(cfg, w, ops, s[..|s| - 1]);
    }
    hide Run;
  }

  lemma CharsInky(cfg: Config, w: Writer, ops: Rev<Op>, s: string)
    requires LinesEndAlike(cfg, w, ops) && InkInv(Run(cfg, w, ops)) && EndsInInk(s)
    ensures LinesEndAlike(cfg, w, AddChars(ops, s)) && InkInv(Run(cfg, w, AddChars(ops, s)))
  {
    CharsEndNothing(cfg, w, ops, s);
    CharsRun(cfg, w, ops, s);
    hide Run, LinesEndAlike, Tail, AddChars;
  }

  // ----- events -----

  lemma SpanInky(cfg: Config, pal: Palette, r: Renderer, s: string)
    requires RenderInv(cfg, r) && !r.block.Code? && Neat(r.writer.out) && InkInv(r.writer) && EndsInInk(s)
    ensures LinesEndAlike(cfg, r.writer, Ops(cfg, pal, r, CodeSpan(s)))
    ensures InkInv(Handle(cfg, pal, r, CodeSpan(s)).writer)
  {
    hide Run, LinesEndAlike, AddChars, InkInv, Inv, Neat;
    var w, push := r.writer, Then(Nil, PushStyle(pal.code));
    PushInky(cfg, w, pal.code);
    if r.block.Term? {
      CharsInky(cfg, w, Nil, s);
    } else {
      CharsInky(cfg, w, push, s);
      LastPops(cfg, w, AddChars(push, s));
    }
  }

  lemma PushInky(cfg: Config, w: Writer, style: Style)
    ensures Run(cfg, w, Nil) == w && LinesEndAlike(cfg, w, Nil)
    ensures LinesEndAlike(cfg, w, Then(Nil, PushStyle(style)))
    ensures InkInv(w) ==> InkInv(Run(cfg, w, Then(Nil, PushStyle(style))))
  {
    hide Tail;
    assert Run(cfg, w, Nil) == w;
  }

  lemma LastPops(cfg: Config, w: Writer, ops: Rev<Op>)
    requires LinesEndAlike(cfg, w, ops)
    ensures LinesEndAlike(cfg, w, Then(ops, PopStyle))
    ensures InkInv(Run(cfg, w, ops)) ==> InkInv(Run(cfg, w, Then(ops, PopStyle)))
  {
    hide Tail;
  }

  lemma AddressInky(cfg: Config, pal: Palette, r: Renderer)
    requires RenderInv(cfg, r) && !r.block.Code? && Neat(r.writer.out) && InkInv(r.writer)
    requires r.writer.desired.link.Some? && !cfg.hyperlinks
    ensures LinesEndAlike(cfg, r.writer, Ops(cfg, pal, r, EndLink)) && InkInv(Handle(cfg, pal, r, EndLink).writer)
  {
    var w, ops := r.writer, Then(Then(Nil, SetLink(None)), AddSpace);
    EventSound(cfg, pal, r, EndLink);
    var address := "<" + w.desired.link.value + ">";
    assert address[|address| - 1] == '>';
    StartReady(cfg, w, ops, address);
    assert AllCalm(Then(Nil, SetLink(None)));
    RunInky(cfg, w, ops);
    CharsInky(cfg, w, ops, address);
    hide Run, LinesEndAlike, AddChars, Tail, Inv, Neat, AllReady;
  }

  lemma {:induction false} StartReady(cfg: Config, w: Writer, ops: Rev<Op>, s: string)
    requires AllReady(cfg, w, AddChars(ops, s))
    ensures AllReady(cfg, w, ops)
  {
    if s != "" {
      StartReady(cfg, w, ops, s[..|s| - 1]);
    }
  }

  lemma CalmOps(cfg: Config, pal: Palette, r: Renderer, ev: Event)
    requires !r.block.Code? && !ev.CodeSpan? && (ev.EndLink? && r.writer.desired.link.Some? ==> cfg.hyperlinks)
    ensures AllCalm(Ops(cfg, pal, r, ev))
  {
    if ev.Text? {
      TextCalm(Nil, ev.text);
    }
    hide TextOps, ItemMarker, Blanks, TextWidth;
    var ops := Ops(cfg, pal, r, ev);
    if !ev.Text? && ops.Snoc? && ops.init.Snoc? {
      assert AllCalm(ops.init.init);
    }
  }

  lemma InlineInky(cfg: Config, pal: Palette, r: Renderer, ev: Event)
    requires RenderInv(cfg, r) && !r.block.Code? && Accepts(r, ev) && Neat(r.writer.out) && InkInv(r.writer)
    requires ev.CodeSpan? ==> EndsInInk(ev.code)
    ensures LinesEndAlike(cfg, r.writer, Ops(cfg, pal, r, ev)) && InkInv(Handle(cfg, pal, r, ev).writer)
  {
    hide Run, LinesEndAlike, Ops, Inv, Neat, InkInv, AllReady;
    if ev.CodeSpan? {
      SpanInky(cfg, pal, r, ev.code);
    } else if ev.EndLink? && r.writer.desired.link.Some? && !cfg.hyperlinks {
      AddressInky(cfg, pal, r);
    } else {
      EventSound(cfg, pal, r, ev);
      CalmOps(cfg, pal, r, ev);
      RunInky(cfg, r.writer, Ops(cfg, pal, r, ev));
    }
  }

  // ----- code -----

  /** In a code block with this line open: once the line has ink, its last blanks are shown
      as the code is. */
  ghost predicate CodeLineInv(cfg: Config, w: Writer, line: string) {
    && w.word == Nil && (w.line.Open? <==> line != "")
    && (HasInk(line) ==> Tail(w.out) <= {Mask(cfg, VerbatimAttrs(w))})
  }

  lemma SubsetAlike(tail: set<Attrs>, a: Attrs)
    requires tail <= {a}
    ensures Alike(tail)
  {
  }

  lemma InkMore(line: string, c: char)
    ensures HasInk(line + [c]) <==> HasInk(line) || c != ' '
  {
    if HasInk(line) {
      var i :| 0 <= i < |line| && line[i] != ' ';
      assert (line + [c])[i] != ' ';
    }
    assert (line + [c])[|line|] == c;
  }

  lemma CodeStepInky(cfg: Config, w: Writer, line: string, c: char)
    requires Inv(cfg, w) && Ready(w, AddVerbatim(c)) && Neat(w.out) && CodeLineInv(cfg, w, line)
    requires c == '\n' ==> EmptyOrInked(line)
    ensures LineEndsAlike(cfg, w, AddVerbatim(c))
    ensures CodeLineInv(cfg, Step(cfg, w, AddVerbatim(c)), if c == '\n' then "" else line + [c])
  {
    hide Tail, Neat, Alike, HasInk, NextPrefix, Mask, NoTrailingBlank;
    var w1, attrs := OpenLine(cfg, w), VerbatimAttrs(w);
    VerbatimInv(cfg, w, c);
    if !w.line.Open? {
      OpenLineNeat(cfg, w);
      OpenLineFacts(cfg, w);
      SubsetAlike(PrefixTail(NextPrefix(w)), PLAIN);
    } else if HasInk(line) {
      SubsetAlike(Tail(w.out), Mask(cfg, attrs));
    }
    NoInkInNothing();
    if c != '\n' {
      PutNeat(cfg, w1, Cell(c, attrs), Verbatim);
      InkMore(line, c);
    }
    hide OpenLine, Put, Inv;
  }

  lemma NoInkInNothing()
    ensures !HasInk("")
  {
  }

  lemma {:induction false} CodeInky(cfg: Config, w: Writer, line: string, s: string)
    requires CodeInv(cfg, w) && Neat(w.out) && CodeLineInv(cfg, w, line) && LinesInked(line, s)
    ensures LinesEndAlike(cfg, w, VerbatimOps(Nil, s))
    ensures CodeLineInv(cfg, Run(cfg, w, VerbatimOps(Nil, s)), CodeLine(line, s))
  {
    if s != "" {
      var init, c := s[..|s| - 1], s[|s| - 1];
      CodeInky(cfg, w, line, init);
      VerbatimSound(cfg, w, s);
      VerbatimSound(cfg, w, init);
      RunExact(cfg, w, VerbatimOps(Nil, init));
      CodeStepInky(cfg, Run(cfg, w, VerbatimOps(Nil, init)), CodeLine(line, init), c);
      hide CodeInv, CodeLineInv, Inv, Neat, Step, LineEndsAlike, EmptyOrInked, NoTrailingBlank;
    }
  }

  lemma CodeEndInky(cfg: Config, pal: Palette, r: Renderer, line: string)
    requires RenderInv(cfg, r) && r.block.Code? && CodeLineInv(cfg, r.writer, line) && EmptyOrInked(line)
    ensures LinesEndAlike(cfg, r.writer, Ops(cfg, pal, r, EndCode)) && InkInv(Handle(cfg, pal, r, EndCode).writer)
  {
    var w := r.writer;
    var w1 := w.(desired := Attrs(PopLast(w.desired.styles), w.desired.link));
    var w2 := w1.(segments := PopLast(w.segments));
    var pop := Then(Nil, PopStyle);
    if w.line.Open? {
      SubsetAlike(Tail(w.out), Mask(cfg, VerbatimAttrs(w)));
    }
    EndLineAny(cfg, w);
    hide Tail, Alike, TrimBlanks, Concat, PopLast, HasInk, Inv;
    assert Run(cfg, w, Nil) == w && LinesEndAlike(cfg, w, Nil);
    assert Run(cfg, w, pop) == w1 && LinesEndAlike(cfg, w, pop);
    assert Run(cfg, w, Then(pop, PopPrefix)) == w2 && LinesEndAlike(cfg, w, Then(pop, PopPrefix));
    assert Run(cfg, w, Then(Then(pop, PopPrefix), FinishBlock)) == EndBlock(cfg, w2);
  }

  // ----- whole documents -----

  ghost predicate CleanInv(cfg: Config, r: Renderer, line: string) {
    if r.block.Code? then CodeLineInv(cfg, r.writer, line) else InkInv(r.writer)
  }

  lemma CodeStartInky(cfg: Config, pal: Palette, r: Renderer)
    requires RenderInv(cfg, r) && !r.block.Code?
    ensures CodeLineInv(cfg, Handle(cfg, pal, r, StartCode).writer, "")
  {
    EndingEventSound(cfg, pal, r, StartCode);
    NoInkInNothing();
    hide Ops, Run, Inv, HasInk, Tail;
  }

  /** One event. */
  lemma EventInky(cfg: Config, pal: Palette, r: Renderer, line: string, ev: Event)
    requires RenderInv(cfg, r) && Accepts(r, ev) && Neat(r.writer.out) && CleanInv(cfg, r, line)
    requires ev.CodeSpan? ==> EndsInInk(ev.code)
    requires r.block.Code? && ev.Text? ==> LinesInked(line, ev.text)
    requires ev.EndCode? ==> EmptyOrInked(line)
    ensures LinesEndAlike(cfg, r.writer, Ops(cfg, pal, r, ev))
    ensures CleanInv(cfg, Handle(cfg, pal, r, ev), if r.block.Code? && ev.Text? then CodeLine(line, ev.text) else "")
  {
    hide LinesEndAlike, Inv, Neat, InkInv, CodeLineInv, LinesInked, EmptyOrInked, CodeLine, Run, VerbatimOps, TextOps,
         AddChars;
    if !r.block.Code? {
      InlineInky(cfg, pal, r, ev);
      CodeStartInky(cfg, pal, r);
    } else if ev.Text? {
      CodeInky(cfg, r.writer, line, ev.text);
    } else {
      CodeEndInky(cfg, pal, r, line);
    }
  }

  lemma {:induction false} StreamInky(cfg: Config, pal: Palette, evs: Rev<Event>)
    requires WellNested(evs) && Inky(evs)
    ensures StreamEndsAlike(cfg, pal, evs) && CleanInv(cfg, HandleAll(cfg, pal, START, evs), LineSoFar(evs))
  {
    match evs
    case Nil =>
    case Snoc(init, ev) =>
      var r := HandleAll(cfg, pal, START, init);
      StreamInky(cfg, pal, init);
      StreamExact(cfg, pal, init);
      StreamTracked(cfg, pal, init);
      NestedIsAccepted(cfg, pal, r, TagsAfter(init), WantAll(cfg, pal, init), ev);
      BlockTracked(cfg, pal, r, TagsAfter(init), WantAll(cfg, pal, init));
      hide Tracks, Neat, NoTrailingBlank, LinesEndAlike, CleanInv, RenderInv, Accepts, Handle, TagsAfter, WantAll,
           NestsWell, LinesInked, EndsInInk, EmptyOrInked, CodeLine, InCode;
      EventInky(cfg, pal, r, LineSoFar(init), ev);
  }

  lemma BlockTracked(cfg: Config, pal: Palette, r: Renderer, tags: Tags, d: Draft)
    requires Tracks(cfg, pal, r, tags, d)
    ensures RenderInv(cfg, r) && (r.block.Code? <==> InCode(tags))
  {
    hide Inv, Shows, InCode, StylesOf, SegmentsOf;
  }

  /** With any settings: if inline code ends in ink, and each line of code is empty or has
      ink, then no line of the output ends in a blank. */
  lemma InkyOutputIsClean(cfg: Config, pal: Palette, evs: Rev<Event>)
    requires WellNested(evs) && !InCode(TagsAfter(evs)) && Inky(evs)
    ensures NoTrailingBlank(Rendered(cfg, pal, evs))
  {
    var r := HandleAll(cfg, pal, START, evs);
    StreamInky(cfg, pal, evs);
    StreamExact(cfg, pal, evs);
    StreamTracked(cfg, pal, evs);
    BlockTracked(cfg, pal, r, TagsAfter(evs), WantAll(cfg, pal, evs));
    hide HandleAll, TagsAfter, WantAll, WellNested, Inky, Tracks, Rendered, StreamEndsAlike, NoTrailingBlank, Neat,
         Tail, Flush, Inv;
    RenderedExact(cfg, pal, evs);
    EmptyAlike();
    FlushInky(cfg, r.writer);
  }

  // ----- a colored blank line of code -----

  /** The start of a block of code whose first line is one blank. */
  const BLANK_CODE: Rev<Event> := Snoc(Snoc(Nil, StartCode), Text(" \n"))

  lemma BlankCodeNests()
    ensures WellNested(BLANK_CODE) && TagsAfter(BLANK_CODE) == Snoc(Nil, CodeBlock)
    ensures WellNested(Snoc(BLANK_CODE, EndCode)) && TagsAfter(Snoc(BLANK_CODE, EndCode)) == Nil
  {
    var start := Snoc(Nil, StartCode);
    assert TagsAfter(Nil) == Nil && WellNested(Nil);
    assert Proper(Nil) && Proper(Snoc(Nil, CodeBlock));
    assert TagsAfter(start) == Snoc(Nil, CodeBlock) && WellNested(start);
  }

  lemma CodeStarts(cfg: Config, pal: Palette)
    ensures HandleAll(cfg, pal, START, Snoc(Nil, StartCode))
            == START.(writer := EMPTY_WRITER.(segments := [CODE_INDENT], desired := Attrs([pal.code], None)),
                      block := Code)
  {
    var w, flushed := EMPTY_WRITER, Then(Nil, FlushWord);
    assert HandleAll(cfg, pal, START, Nil) == START;
    assert Run(cfg, w, Nil) == w && Run(cfg, w, flushed) == w && Run(cfg, w, Then(flushed, FinishLine)) == w;
    assert [] + [CODE_INDENT] == [CODE_INDENT] && [] + [pal.code] == [pal.code];
    hide Flush, EndLine;
    assert Run(cfg, w, Then(Then(flushed, FinishLine), PushPrefix(CODE_INDENT))) == w.(segments := [CODE_INDENT]);
  }

  lemma BlankCodeHandled(cfg: Config, pal: Palette)
    ensures HandleAll(cfg, pal, START, BLANK_CODE).writer
            == var w := HandleAll(cfg, pal, START, Snoc(Nil, StartCode)).writer;
               Step(cfg, Run(cfg, w, VerbatimOps(Nil, " ")), AddVerbatim('\n'))
  {
    CodeStarts(cfg, pal);
    hide Step;
    assert " \n"[..1] == " ";
    assert VerbatimOps(Nil, " \n") == Snoc(VerbatimOps(Nil, " "), AddVerbatim('\n'));
  }

  lemma IndentIsNext(cfg: Config, desired: Attrs)
    ensures var w := EMPTY_WRITER.(segments := [CODE_INDENT], desired := desired);
            NextPrefix(w) == CODE_INDENT && Inv(cfg, w) && Neat(w.out)
  {
    assert Concat([CODE_INDENT][..0]) == "" && "" + CODE_INDENT == CODE_INDENT;
  }

  /** A document whose line ends in blanks, with color: a blank line of code. */
  lemma ColoredBlankKeepsPrefix(cfg: Config, pal: Palette)
    requires cfg.color
    ensures var evs := Snoc(BLANK_CODE, EndCode);
            WellNested(evs) && TagsAfter(evs) == Nil && !NoTrailingBlank(Rendered(cfg, pal, evs))
  {
    var w := EMPTY_WRITER.(segments := [CODE_INDENT], desired := Attrs([pal.code], None));
    BlankCodeNests();
    CodeStarts(cfg, pal);
    BlankCodeHandled(cfg, pal);
    IndentIsNext(cfg, w.desired);
    CodeLineExact(cfg, w, " ");
    assert !HasInk(" ");
    hide HandleAll, WellNested, TagsAfter, NoTrailingBlank, Rendered, Step, Run, Neat, Inv, LinesEndAlike, Ops;
    StreamExact(cfg, pal, BLANK_CODE);
    RenderedExact(cfg, pal, Snoc(BLANK_CODE, EndCode));
  }
}
