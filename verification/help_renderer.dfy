/** Rendering a stream of markdown events through the line writer. */
module HelpRenderer {
  import opened Wrappers
  import opened CharClasses
  import opened LineLayout
  import opened Terminal
  import opened HeldText
  import opened ShownText
  import opened WantedText
  import opened HelpEvents

  datatype Block = Normal | Term | Code

  datatype Renderer = Renderer(writer: Writer, block: Block, lists: seq<Option<nat>>, dropped: seq<string>)

  const START := Renderer(EMPTY_WRITER, Normal, [], [])

  // ----- what each event asks of the writer -----

  function Then(ops: Rev<Op>, op: Op): Rev<Op> {
    Snoc(ops, op)
  }

  function AddChars(ops: Rev<Op>, s: string): Rev<Op> {
    if s == "" then ops else Snoc(AddChars(ops, s[..|s| - 1]), AddChar(s[|s| - 1]))
  }

  function TextOp(c: char): Op {
    if IsWhitespace(c) then AddSpace else AddChar(c)
  }

  function TextOps(ops: Rev<Op>, s: string): Rev<Op> {
    if s == "" then ops else Snoc(TextOps(ops, s[..|s| - 1]), TextOp(s[|s| - 1]))
  }

  function VerbatimOps(ops: Rev<Op>, s: string): Rev<Op> {
    if s == "" then ops else Snoc(VerbatimOps(ops, s[..|s| - 1]), AddVerbatim(s[|s| - 1]))
  }

  function Ops(cfg: Config, pal: Palette, r: Renderer, ev: Event): Rev<Op> {
    match ev
    case StartParagraph => Nil
    case EndParagraph => Then(Then(Nil, FlushWord), FinishBlock)
    case StartHeading => Then(Then(Nil, FinishBlock), PushStyle(pal.heading))
    case EndHeading => Then(Then(Then(Nil, FlushWord), PopStyle), FinishBlock)
    case StartQuote => Then(Nil, PushPrefix(QUOTE_PREFIX))
    case EndQuote => Then(Then(Then(Nil, FlushWord), PopPrefix), FinishBlock)
    case StartCode => Then(Then(Then(Then(Nil, FlushWord), FinishLine), PushPrefix(CODE_INDENT)), PushStyle(pal.code))
    case EndCode => Then(Then(Then(Nil, PopStyle), PopPrefix), FinishBlock)
    case StartList(_) => Nil
    case EndList => Then(Nil, FinishBlock)
    case StartItem =>
      var marker := if r.lists == [] then "" else ItemMarker(r.lists[|r.lists| - 1]);
      Then(Then(Then(Then(Nil, FlushWord), FinishLine), SetMarker(marker)), PushPrefix(Blanks(TextWidth(cfg, marker))))
    case EndItem => Then(Then(Then(Nil, FlushWord), PopPrefix), FinishLine)
    case StartDefinitions => Nil
    case EndDefinitions => Nil
    case StartTitle => Then(Then(Nil, FinishBlock), PushStyle(pal.term))
    case EndTitle => Then(Then(Then(Nil, FlushWord), PopStyle), FinishLine)
    case StartDefinition => Then(Nil, PushPrefix(DEFINITION_INDENT))
    case EndDefinition => Then(Then(Then(Nil, FlushWord), PopPrefix), FinishBlock)
    case StartEmphasis => Then(Nil, PushStyle(pal.emphasis))
    case StartStrong => Then(Nil, PushStyle(pal.strong))
    case StartStrikethrough => Then(Nil, PushStyle(pal.strikethrough))
    case EndStyle => Then(Nil, PopStyle)
    case StartLink(url) =>
      if url.None? then Nil
      else Then(if cfg.hyperlinks then Then(Nil, PushStyle(pal.link)) else Nil, SetLink(url))
    case EndLink =>
      var ops := Then(Nil, SetLink(None));
      if r.writer.desired.link.None? then ops
      else if cfg.hyperlinks then Then(ops, PopStyle)
      else AddChars(Then(ops, AddSpace), "<" + r.writer.desired.link.value + ">")
    case Text(s) => if r.block.Code? then VerbatimOps(Nil, s) else TextOps(Nil, s)
    case CodeSpan(s) =>
      if r.block.Term? then AddChars(Nil, s)
      else Then(AddChars(Then(Nil, PushStyle(pal.code)), s), PopStyle)
    case SoftBreak => Then(Nil, AddSpace)
    case HardBreak => Then(Then(Nil, FlushWord), FinishLine)
    case Unsupported(_) => Nil
  }

  function NextBlock(r: Renderer, ev: Event): Block {
    match ev
    case StartCode => Code
    case EndCode => Normal
    case StartTitle => Term
    case EndTitle => Normal
    case _ => r.block
  }

  function NextLists(r: Renderer, ev: Event): seq<Option<nat>> {
    match ev
    case StartList(start) => r.lists + [start]
    case EndList => PopLast(r.lists)
    case StartItem =>
      if r.lists == [] || r.lists[|r.lists| - 1].None? then r.lists
      else r.lists[..|r.lists| - 1] + [Some(r.lists[|r.lists| - 1].value + 1)]
    case _ => r.lists
  }

  function Handle(cfg: Config, pal: Palette, r: Renderer, ev: Event): Renderer {
    Renderer(Run(cfg, r.writer, Ops(cfg, pal, r, ev)), NextBlock(r, ev), NextLists(r, ev),
             if ev.Unsupported? then r.dropped + [ev.name] else r.dropped)
  }

  function HandleAll(cfg: Config, pal: Palette, r: Renderer, evs: Rev<Event>): Renderer {
    match evs
    case Nil => r
    case Snoc(init, ev) => Handle(cfg, pal, HandleAll(cfg, pal, r, init), ev)
  }

  // ----- which streams -----

  predicate PopsPrefix(ev: Event) {
    ev.EndQuote? || ev.EndCode? || ev.EndItem? || ev.EndDefinition?
  }

  /** The event does not panic: items are inside lists, prefixes are popped only after
      they were pushed, and no inline code comes inside a code block. */
  predicate NoPanic(r: Renderer, ev: Event) {
    && (ev.StartItem? ==> r.lists != [])
    && (PopsPrefix(ev) ==> r.writer.segments != [])
    && (ev.CodeSpan? ==> !r.block.Code?)
  }

  /** Code blocks hold only text. */
  predicate NestsCode(r: Renderer, ev: Event) {
    if r.block.Code? then ev.Text? || ev.EndCode? else !ev.EndCode?
  }

  predicate Accepts(r: Renderer, ev: Event) {
    NoPanic(r, ev) && NestsCode(r, ev)
  }

  predicate AcceptsAll(cfg: Config, pal: Palette, r: Renderer, evs: Rev<Event>) {
    match evs
    case Nil => true
    case Snoc(init, ev) => AcceptsAll(cfg, pal, r, init) && Accepts(HandleAll(cfg, pal, r, init), ev)
  }

  // ----- the invariant between events -----

  /** Outside code blocks an open line ends in a word with a space pending; inside one
      no word is buffered and an open line ends in code. */
  ghost predicate RenderInv(cfg: Config, r: Renderer) {
    && Inv(cfg, r.writer)
    && if r.block.Code? then r.writer.word == Nil && (r.writer.line.Open? ==> LastRole(r.writer.out, Verbatim))
       else r.writer.line.Open? ==> LastRole(r.writer.out, Word) && r.writer.pending.Some?
  }

  /** The same for the writer alone, outside code blocks. */
  ghost predicate InlineInv(cfg: Config, w: Writer) {
    Inv(cfg, w) && (w.line.Open? ==> LastRole(w.out, Word) && w.pending.Some?)
  }

  lemma InlineStep(cfg: Config, w: Writer, op: Op)
    requires InlineInv(cfg, w)
    requires match op
             case AddVerbatim(_) => false
             case FlushWord => false
             case PopPrefix => w.segments != []
             case _ => true
    ensures Ready(w, op) && InlineInv(cfg, Step(cfg, w, op))
  {
    StepInv(cfg, w, op);
    if op.AddSpace? {
      FlushInv(cfg, w);
    } else if op.FinishLine? || op.FinishBlock? {
      EndLineAny(cfg, w);
    }
  }

  lemma {:induction false} CharsSound(cfg: Config, w: Writer, ops: Rev<Op>, s: string)
    requires AllReady(cfg, w, ops) && InlineInv(cfg, Run(cfg, w, ops))
    ensures AllReady(cfg, w, AddChars(ops, s)) && InlineInv(cfg, Run(cfg, w, AddChars(ops, s)))
  {
    if s != "" {
      CharsSound(cfg, w, ops, s[..|s| - 1]);
      InlineStep(cfg, Run(cfg, w, AddChars(ops, s[..|s| - 1])), AddChar(s[|s| - 1]));
    }
  }

  lemma {:induction false} TextSound(cfg: Config, w: Writer, ops: Rev<Op>, s: string)
    requires AllReady(cfg, w, ops) && InlineInv(cfg, Run(cfg, w, ops))
    ensures AllReady(cfg, w, TextOps(ops, s)) && InlineInv(cfg, Run(cfg, w, TextOps(ops, s)))
  {
    if s != "" {
      TextSound(cfg, w, ops, s[..|s| - 1]);
      InlineStep(cfg, Run(cfg, w, TextOps(ops, s[..|s| - 1])), TextOp(s[|s| - 1]));
    }
  }

  ghost predicate CodeInv(cfg: Config, w: Writer) {
    Inv(cfg, w) && w.word == Nil && (w.line.Open? ==> LastRole(w.out, Verbatim))
  }

  lemma {:induction false} VerbatimSound(cfg: Config, w: Writer, s: string)
    requires CodeInv(cfg, w)
    ensures AllReady(cfg, w, VerbatimOps(Nil, s)) && CodeInv(cfg, Run(cfg, w, VerbatimOps(Nil, s)))
  {
    if s != "" {
      VerbatimSound(cfg, w, s[..|s| - 1]);
      VerbatimInv(cfg, Run(cfg, w, VerbatimOps(Nil, s[..|s| - 1])), s[|s| - 1]);
    }
  }

  lemma FlushStart(cfg: Config, w: Writer)
    requires InlineInv(cfg, w)
    ensures var ops := Then(Nil, FlushWord);
            AllReady(cfg, w, ops) && Inv(cfg, Run(cfg, w, ops)) && Run(cfg, w, ops).word == Nil
            && Run(cfg, w, ops).segments == w.segments
  {
    FlushInv(cfg, w);
    assert Run(cfg, w, Then(Nil, FlushWord)) == Flush(cfg, w);
  }

  /** One more operation once the word buffer is empty. */
  lemma EmptyStep(cfg: Config, w: Writer, ops: Rev<Op>, op: Op)
    requires AllReady(cfg, w, ops) && Inv(cfg, Run(cfg, w, ops)) && Run(cfg, w, ops).word == Nil
    requires match op
             case PopPrefix => Run(cfg, w, ops).segments != []
             case AddChar(_) => false
             case AddSpace => false
             case AddVerbatim(_) => false
             case _ => true
    ensures AllReady(cfg, w, Then(ops, op)) && Inv(cfg, Run(cfg, w, Then(ops, op)))
            && Run(cfg, w, Then(ops, op)).word == Nil
    ensures op == FinishLine || op == FinishBlock || (!Run(cfg, w, ops).line.Open? && op != FlushWord) ==>
              !Run(cfg, w, Then(ops, op)).line.Open?
    ensures op == PopStyle ==> Run(cfg, w, Then(ops, op)).segments == Run(cfg, w, ops).segments
  {
    var w1 := Run(cfg, w, ops);
    StepInv(cfg, w1, op);
    if op == FinishLine || op == FinishBlock {
      EndLineAny(cfg, w1);
    }
  }

  /** Handling an accepted event keeps the invariant, and asks only for what is ready. */
  lemma EventSound(cfg: Config, pal: Palette, r: Renderer, ev: Event)
    requires RenderInv(cfg, r) && Accepts(r, ev)
    ensures AllReady(cfg, r.writer, Ops(cfg, pal, r, ev))
    ensures RenderInv(cfg, Handle(cfg, pal, r, ev))
  {
    var w := r.writer;
    if r.block.Code? {
      if ev.Text? {
        VerbatimSound(cfg, w, ev.text);
      } else {
        EmptyStep(cfg, w, Nil, PopStyle);
        EmptyStep(cfg, w, Then(Nil, PopStyle), PopPrefix);
        EmptyStep(cfg, w, Then(Then(Nil, PopStyle), PopPrefix), FinishBlock);
      }
    } else {
      InlineEventSound(cfg, pal, r, ev);
    }
  }

  /** One more operation that does not flush. */
  lemma MoreInline(cfg: Config, w: Writer, ops: Rev<Op>, op: Op)
    requires AllReady(cfg, w, ops) && InlineInv(cfg, Run(cfg, w, ops))
    requires op.AddChar? || op.AddSpace? || op.FinishBlock? || op.PushStyle? || op.PopStyle? || op.SetLink?
             || op.PushPrefix?
    ensures AllReady(cfg, w, Then(ops, op)) && InlineInv(cfg, Run(cfg, w, Then(ops, op)))
  {
    InlineStep(cfg, Run(cfg, w, ops), op);
  }

  lemma StartRun(cfg: Config, w: Writer)
    ensures Run(cfg, w, Nil) == w && AllReady(cfg, w, Nil)
  {
  }

  /** A flush, a pop and the end of a line or block. */
  lemma FlushPopEnd(cfg: Config, w: Writer, pop: Op, end: Op)
    requires InlineInv(cfg, w) && (pop == PopStyle || (pop == PopPrefix && w.segments != []))
    requires end == FinishLine || end == FinishBlock
    ensures var ops := Then(Then(Then(Nil, FlushWord), pop), end);
            AllReady(cfg, w, ops) && InlineInv(cfg, Run(cfg, w, ops)) && CodeInv(cfg, Run(cfg, w, ops))
  {
    var flush := Then(Nil, FlushWord);
    FlushStart(cfg, w);
    hide Run, Inv, AllReady;
    EmptyStep(cfg, w, flush, pop);
    EmptyStep(cfg, w, Then(flush, pop), end);
  }

  lemma FlushEnd(cfg: Config, w: Writer, end: Op)
    requires InlineInv(cfg, w) && (end == FinishLine || end == FinishBlock)
    ensures var ops := Then(Then(Nil, FlushWord), end);
            AllReady(cfg, w, ops) && InlineInv(cfg, Run(cfg, w, ops)) && CodeInv(cfg, Run(cfg, w, ops))
  {
    FlushStart(cfg, w);
    hide Run, Inv, AllReady;
    EmptyStep(cfg, w, Then(Nil, FlushWord), end);
  }

  /** A flush, the end of the line, and two operations that set up what follows. */
  lemma FlushEndSetUp(cfg: Config, w: Writer, a: Op, b: Op)
    requires InlineInv(cfg, w) && SetsUp(a) && SetsUp(b)
    ensures var ops := Then(Then(Then(Then(Nil, FlushWord), FinishLine), a), b);
            AllReady(cfg, w, ops) && InlineInv(cfg, Run(cfg, w, ops)) && CodeInv(cfg, Run(cfg, w, ops))
  {
    var ended := Then(Then(Nil, FlushWord), FinishLine);
    FlushEnd(cfg, w, FinishLine);
    hide Run, Inv, AllReady;
    EmptyStep(cfg, w, ended, a);
    EmptyStep(cfg, w, Then(ended, a), b);
  }

  predicate SetsUp(op: Op) {
    op.PushStyle? || op.PushPrefix? || op.SetMarker?
  }

  /** The end of a block, whatever is buffered, and then perhaps a new style. */
  lemma EndSetUp(cfg: Config, w: Writer, a: Op)
    requires InlineInv(cfg, w) && a.PushStyle?
    ensures var ended := Then(Nil, FinishBlock);
            && AllReady(cfg, w, ended) && InlineInv(cfg, Run(cfg, w, ended))
            && AllReady(cfg, w, Then(ended, a)) && InlineInv(cfg, Run(cfg, w, Then(ended, a)))
  {
    StartRun(cfg, w);
    hide Run, InlineInv, AllReady;
    MoreInline(cfg, w, Nil, FinishBlock);
    MoreInline(cfg, w, Then(Nil, FinishBlock), a);
  }

  predicate EndsLine(ev: Event) {
    || ev.EndParagraph? || ev.EndHeading? || ev.StartHeading? || PopsPrefix(ev) || ev.StartCode? || ev.EndList?
    || ev.StartItem? || ev.StartTitle? || ev.EndTitle? || ev.HardBreak?
  }

  lemma EndingEventSound(cfg: Config, pal: Palette, r: Renderer, ev: Event)
    requires InlineInv(cfg, r.writer) && !r.block.Code? && Accepts(r, ev) && EndsLine(ev)
    ensures AllReady(cfg, r.writer, Ops(cfg, pal, r, ev)) && InlineInv(cfg, Run(cfg, r.writer, Ops(cfg, pal, r, ev)))
    ensures ev.StartCode? ==> CodeInv(cfg, Run(cfg, r.writer, Ops(cfg, pal, r, ev)))
  {
    var w := r.writer;
    hide Run, InlineInv, CodeInv, AllReady, ItemMarker, Blanks;
    if ev.EndParagraph? {
      FlushEnd(cfg, w, FinishBlock);
    } else if ev.HardBreak? {
      FlushEnd(cfg, w, FinishLine);
    } else if ev.EndHeading? {
      FlushPopEnd(cfg, w, PopStyle, FinishBlock);
    } else if ev.EndTitle? {
      FlushPopEnd(cfg, w, PopStyle, FinishLine);
    } else if ev.EndItem? {
      FlushPopEnd(cfg, w, PopPrefix, FinishLine);
    } else if ev.EndQuote? || ev.EndDefinition? {
      FlushPopEnd(cfg, w, PopPrefix, FinishBlock);
    } else if ev.StartCode? {
      FlushEndSetUp(cfg, w, PushPrefix(CODE_INDENT), PushStyle(pal.code));
    } else if ev.StartItem? {
      var marker := ItemMarker(r.lists[|r.lists| - 1]);
      FlushEndSetUp(cfg, w, SetMarker(marker), PushPrefix(Blanks(TextWidth(cfg, marker))));
    } else {
      EndSetUp(cfg, w, PushStyle(if ev.StartHeading? then pal.heading else pal.term));
    }
  }

  lemma LinkEndSound(cfg: Config, w: Writer)
    requires InlineInv(cfg, w) && w.desired.link.Some?
    ensures var ops := Then(Nil, SetLink(None));
            var ops' := if cfg.hyperlinks then Then(ops, PopStyle)
                        else AddChars(Then(ops, AddSpace), "<" + w.desired.link.value + ">");
            AllReady(cfg, w, ops') && InlineInv(cfg, Run(cfg, w, ops'))
  {
    var ops := Then(Nil, SetLink(None));
    StartRun(cfg, w);
    hide Run, InlineInv, AllReady, AddChars;
    MoreInline(cfg, w, Nil, SetLink(None));
    if cfg.hyperlinks {
      MoreInline(cfg, w, ops, PopStyle);
    } else {
      MoreInline(cfg, w, ops, AddSpace);
      CharsSound(cfg, w, Then(ops, AddSpace), "<" + w.desired.link.value + ">");
    }
  }

  lemma StyledCharsSound(cfg: Config, w: Writer, style: Style, s: string)
    requires InlineInv(cfg, w)
    ensures var ops := Then(AddChars(Then(Nil, PushStyle(style)), s), PopStyle);
            AllReady(cfg, w, ops) && InlineInv(cfg, Run(cfg, w, ops))
  {
    var ops := Then(Nil, PushStyle(style));
    StartRun(cfg, w);
    hide Run, InlineInv, AllReady, AddChars;
    MoreInline(cfg, w, Nil, PushStyle(style));
    CharsSound(cfg, w, ops, s);
    MoreInline(cfg, w, AddChars(ops, s), PopStyle);
  }

  lemma LinkStartSound(cfg: Config, w: Writer, style: Style, url: Option<string>)
    requires InlineInv(cfg, w)
    ensures var ops := Then(if cfg.hyperlinks then Then(Nil, PushStyle(style)) else Nil, SetLink(url));
            AllReady(cfg, w, ops) && InlineInv(cfg, Run(cfg, w, ops))
  {
    StartRun(cfg, w);
    hide Run, InlineInv, AllReady;
    if cfg.hyperlinks {
      MoreInline(cfg, w, Nil, PushStyle(style));
      MoreInline(cfg, w, Then(Nil, PushStyle(style)), SetLink(url));
    } else {
      MoreInline(cfg, w, Nil, SetLink(url));
    }
  }

  lemma OneInline(cfg: Config, w: Writer, op: Op)
    requires InlineInv(cfg, w) && (op.AddSpace? || op.PushStyle? || op.PopStyle? || op.SetLink? || op.PushPrefix?)
    ensures AllReady(cfg, w, Then(Nil, op)) && InlineInv(cfg, Run(cfg, w, Then(Nil, op)))
  {
    StartRun(cfg, w);
    MoreInline(cfg, w, Nil, op);
  }

  lemma TextEventSound(cfg: Config, pal: Palette, r: Renderer, ev: Event)
    requires InlineInv(cfg, r.writer) && !r.block.Code? && Accepts(r, ev) && !EndsLine(ev)
    ensures AllReady(cfg, r.writer, Ops(cfg, pal, r, ev)) && InlineInv(cfg, Run(cfg, r.writer, Ops(cfg, pal, r, ev)))
  {
    var w := r.writer;
    StartRun(cfg, w);
    hide Run, InlineInv, AllReady, AddChars, TextOps;
    if ev.Text? {
      TextSound(cfg, w, Nil, ev.text);
    } else if ev.CodeSpan? {
      CharsSound(cfg, w, Nil, ev.code);
      StyledCharsSound(cfg, w, pal.code, ev.code);
    } else if ev.StartLink? {
      LinkStartSound(cfg, w, pal.link, ev.url);
    } else if ev.EndLink? {
      OneInline(cfg, w, SetLink(None));
      if w.desired.link.Some? {
        LinkEndSound(cfg, w);
      }
    } else if ev.EndStyle? {
      OneInline(cfg, w, PopStyle);
    } else if ev.SoftBreak? {
      OneInline(cfg, w, AddSpace);
    } else if ev.StartQuote? || ev.StartDefinition? {
      OneInline(cfg, w, PushPrefix(if ev.StartQuote? then QUOTE_PREFIX else DEFINITION_INDENT));
    } else if ev.StartEmphasis? || ev.StartStrong? || ev.StartStrikethrough? {
      OneInline(cfg, w,
        PushStyle(if ev.StartEmphasis? then pal.emphasis
                  else if ev.StartStrong? then pal.strong
                  else pal.strikethrough));
    }
  }

  lemma InlineEventSound(cfg: Config, pal: Palette, r: Renderer, ev: Event)
    requires !r.block.Code? && RenderInv(cfg, r) && Accepts(r, ev)
    ensures AllReady(cfg, r.writer, Ops(cfg, pal, r, ev))
    ensures InlineInv(cfg, Run(cfg, r.writer, Ops(cfg, pal, r, ev)))
    ensures ev.StartCode? ==> CodeInv(cfg, Run(cfg, r.writer, Ops(cfg, pal, r, ev)))
  {
    assert InlineInv(cfg, r.writer);
    hide Ops, Run, Inv, AllReady, InlineInv, CodeInv;
    if EndsLine(ev) {
      EndingEventSound(cfg, pal, r, ev);
    } else {
      TextEventSound(cfg, pal, r, ev);
    }
  }

  // ----- markers -----

  predicate NoMarker(ops: Rev<Op>) {
    ops.Snoc? ==> !ops.last.SetMarker? && NoMarker(ops.init)
  }

  lemma {:induction false} NoMarkerStarts(cfg: Config, w: Writer, ops: Rev<Op>)
    requires NoMarker(ops)
    ensures AllMarkStarts(cfg, w, ops)
  {
    if ops.Snoc? {
      NoMarkerStarts(cfg, w, ops.init);
    }
  }

  lemma {:induction false} TextNoMarker(ops: Rev<Op>, s: string)
    requires NoMarker(ops)
    ensures NoMarker(AddChars(ops, s)) && NoMarker(TextOps(ops, s)) && NoMarker(VerbatimOps(ops, s))
  {
    if s != "" {
      TextNoMarker(ops, s[..|s| - 1]);
    }
  }

  lemma OpsNoMarker(cfg: Config, pal: Palette, r: Renderer, ev: Event)
    requires !ev.StartItem?
    ensures NoMarker(Ops(cfg, pal, r, ev))
  {
    if ev.Text? {
      TextNoMarker(Nil, ev.text);
    } else if ev.CodeSpan? {
      TextNoMarker(Nil, ev.code);
      TextNoMarker(Then(Nil, PushStyle(pal.code)), ev.code);
    } else if ev.EndLink? && r.writer.desired.link.Some? {
      TextNoMarker(Then(Then(Nil, SetLink(None)), AddSpace), "<" + r.writer.desired.link.value + ">");
    }
    hide TextOps, VerbatimOps, AddChars;
    var ops := Ops(cfg, pal, r, ev);
    if !ev.Text? && !ev.CodeSpan? && !ev.EndLink? && ops.Snoc? && ops.init.Snoc? {
      assert NoMarker(ops.init.init);
    }
  }

  /** An item's marker is set once the line before it has ended; no other event sets one. */
  lemma EventMarksStart(cfg: Config, pal: Palette, r: Renderer, ev: Event)
    requires RenderInv(cfg, r) && Accepts(r, ev)
    ensures AllMarkStarts(cfg, r.writer, Ops(cfg, pal, r, ev))
  {
    if ev.StartItem? {
      ItemMarksStart(cfg, pal, r);
    } else {
      OpsNoMarker(cfg, pal, r, ev);
      NoMarkerStarts(cfg, r.writer, Ops(cfg, pal, r, ev));
    }
    hide Ops, Run;
  }

  lemma ItemMarksStart(cfg: Config, pal: Palette, r: Renderer)
    requires RenderInv(cfg, r) && Accepts(r, StartItem)
    ensures AllMarkStarts(cfg, r.writer, Ops(cfg, pal, r, StartItem))
  {
    var ops := Then(Then(Nil, FlushWord), FinishLine);
    FlushEnd(cfg, r.writer, FinishLine);
    NoMarkerStarts(cfg, r.writer, ops);
    hide Run, Inv, ItemMarker, Blanks, TextWidth;
  }

  // ----- whole documents -----

  function ListsOf(tags: Tags): seq<Option<nat>> {
    match tags
    case Nil => []
    case Snoc(init, t) => if t.List? then ListsOf(init) + [t.next] else ListsOf(init)
  }

  function BlockOf(tags: Tags): Block {
    if InCode(tags) then Code else if InTitle(tags) then Term else Normal
  }

  function RequestOf(cfg: Config, pal: Palette, tags: Tags, want: Draft): Request {
    Request(AttrsOf(cfg, pal, tags), SegmentsOf(cfg, tags), want)
  }

  /** The renderer is where the open tags say, and holds the text wanted so far. */
  ghost predicate Tracks(cfg: Config, pal: Palette, r: Renderer, tags: Tags, want: Draft) {
    && Proper(tags) && RenderInv(cfg, r) && r.lists == ListsOf(tags) && r.block == BlockOf(tags)
    && Meets(cfg, r.writer, RequestOf(cfg, pal, tags, want))
  }

  lemma NestedIsAccepted(cfg: Config, pal: Palette, r: Renderer, tags: Tags, want: Draft, ev: Event)
    requires Tracks(cfg, pal, r, tags, want) && NestsWell(tags, ev)
    ensures Accepts(r, ev)
  {
    hide RenderInv, StylesOf, Shows, Holds;
  }

  lemma {:induction false} AskChars(cfg: Config, q: Request, ops: Rev<Op>, s: string)
    ensures var q1 := AskAll(cfg, q, ops);
            AskAll(cfg, q, AddChars(ops, s)) == q1.(draft := AddSpan(q1.draft, s, Mask(cfg, q1.desired)))
  {
    if s != "" {
      AskChars(cfg, q, ops, s[..|s| - 1]);
    }
  }

  lemma {:induction false} AskText(cfg: Config, q: Request, s: string)
    ensures AskAll(cfg, q, TextOps(Nil, s))
            == q.(draft := AddText(q.draft, s, Mask(cfg, q.desired), Concat(q.segments)))
  {
    if s != "" {
      AskText(cfg, q, s[..|s| - 1]);
      hide IsWhitespace, SpaceAdded, Concat, Mask;
    }
  }

  lemma {:induction false} AskCode(cfg: Config, q: Request, s: string)
    ensures AskAll(cfg, q, VerbatimOps(Nil, s))
            == q.(draft := AddCode(q.draft, s, Mask(cfg, Attrs(q.desired.styles, None)), Concat(q.segments)))
  {
    if s != "" {
      AskCode(cfg, q, s[..|s| - 1]);
      hide CodeAdded, Concat, Mask;
    }
  }

  lemma Popped<T>(s: seq<T>, x: T)
    ensures PopLast(s + [x]) == s && s + [] == s
  {
  }

  lemma AskOne(cfg: Config, q: Request, a: Op)
    ensures AskAll(cfg, q, Then(Nil, a)) == Ask(cfg, q, a)
  {
    assert AskAll(cfg, q, Nil) == q;
  }

  lemma AskThen(cfg: Config, q: Request, ops: Rev<Op>, a: Op)
    ensures AskAll(cfg, q, Then(ops, a)) == Ask(cfg, AskAll(cfg, q, ops), a)
  {
  }

  lemma OpenedTag(cfg: Config, pal: Palette, tags: Tags, t: Tag)
    ensures StylesOf(cfg, pal, Snoc(tags, t)) == StylesOf(cfg, pal, tags) + StyleOf(cfg, pal, t)
    ensures SegmentsOf(cfg, Snoc(tags, t)) == SegmentsOf(cfg, tags) + SegmentOf(cfg, t)
    ensures StylesOf(cfg, pal, tags) + [] == StylesOf(cfg, pal, tags)
            && SegmentsOf(cfg, tags) + [] == SegmentsOf(cfg, tags)
  {
  }

  lemma ClosedStyle(cfg: Config, pal: Palette, tags: Tags)
    requires tags.Snoc?
    ensures StylesOf(cfg, pal, tags.init)
            == if StyleOf(cfg, pal, tags.last) == [] then StylesOf(cfg, pal, tags)
               else PopLast(StylesOf(cfg, pal, tags))
  {
    hide PopLast;
    var outer, own := StylesOf(cfg, pal, tags.init), StyleOf(cfg, pal, tags.last);
    if own == [] {
      assert outer + own == outer;
    } else {
      Popped(outer, own[0]);
    }
  }

  lemma ClosedSegment(cfg: Config, tags: Tags)
    requires tags.Snoc?
    ensures SegmentsOf(cfg, tags.init)
            == if SegmentOf(cfg, tags.last) == [] then SegmentsOf(cfg, tags) else PopLast(SegmentsOf(cfg, tags))
  {
    hide PopLast, Blanks, TextWidth;
    var outer, own := SegmentsOf(cfg, tags.init), SegmentOf(cfg, tags.last);
    if own == [] {
      assert outer + own == outer;
    } else {
      Popped(outer, own[0]);
    }
  }

  /** A tag that closes takes its style and its prefix back. */
  lemma ClosedTag(cfg: Config, pal: Palette, tags: Tags)
    requires tags.Snoc?
    ensures StylesOf(cfg, pal, tags.init)
            == if StyleOf(cfg, pal, tags.last) == [] then StylesOf(cfg, pal, tags)
               else PopLast(StylesOf(cfg, pal, tags))
    ensures SegmentsOf(cfg, tags.init)
            == if SegmentOf(cfg, tags.last) == [] then SegmentsOf(cfg, tags) else PopLast(SegmentsOf(cfg, tags))
  {
    hide *;
    ClosedStyle(cfg, pal, tags);
    ClosedSegment(cfg, tags);
  }

  lemma {:induction false} NoLinkOutside(tags: Tags)
    requires !InLink(tags)
    ensures LinkOf(tags) == None
  {
    if tags.Snoc? {
      NoLinkOutside(tags.init);
    }
  }

  /** Text and what is inside it. */
  lemma TextAsks(cfg: Config, pal: Palette, r: Renderer, tags: Tags, want: Draft, ev: Event)
    requires r.block == BlockOf(tags) && r.writer.desired == AttrsOf(cfg, pal, tags)
    requires NestsWell(tags, ev) && (ev.Text? || ev.CodeSpan? || ev.SoftBreak? || ev.HardBreak? || ev.Unsupported?)
    ensures AskAll(cfg, RequestOf(cfg, pal, tags, want), Ops(cfg, pal, r, ev))
            == RequestOf(cfg, pal, tags, WantInline(cfg, pal, tags, want, ev))
  {
    hide AddText, AddSpan, AddCode, TextOps, VerbatimOps, AddChars, StylesOf, SegmentsOf, AskAll, Concat, WordClosed,
         InCode, InTitle, InLink, LinkOf, ItemMarker, Blanks, TextWidth, Proper;
    var q := RequestOf(cfg, pal, tags, want);
    AskNothing(cfg, q);
    if ev.Text? {
      AskText(cfg, q, ev.text);
      AskCode(cfg, q, ev.text);
    } else if ev.CodeSpan? {
      AskChars(cfg, q, Nil, ev.code);
      SpanAsks(cfg, q, pal.code, ev.code);
    } else if ev.SoftBreak? {
      AskOne(cfg, q, AddSpace);
    } else if ev.HardBreak? {
      AskOne(cfg, q, FlushWord);
      AskThen(cfg, q, Then(Nil, FlushWord), FinishLine);
    }
  }

  /** Inline code in its style. */
  lemma SpanAsks(cfg: Config, q: Request, style: Style, s: string)
    ensures var code := Mask(cfg, Attrs(q.desired.styles + [style], q.desired.link));
            AskAll(cfg, q, Then(AddChars(Then(Nil, PushStyle(style)), s), PopStyle))
            == q.(draft := AddSpan(q.draft, s, code))
  {
    hide AddSpan, AddChars, AskAll, PopLast;
    AskOne(cfg, q, PushStyle(style));
    AskChars(cfg, q, Then(Nil, PushStyle(style)), s);
    AskThen(cfg, q, AddChars(Then(Nil, PushStyle(style)), s), PopStyle);
    Popped(q.desired.styles, style);
  }

  lemma AskNothing(cfg: Config, q: Request)
    ensures AskAll(cfg, q, Nil) == q
  {
  }

  /** Links, and the styles inside text. */
  lemma StyleAsks(cfg: Config, pal: Palette, r: Renderer, tags: Tags, want: Draft, ev: Event)
    requires NestsWell(tags, ev) && (ev.StartEmphasis? || ev.StartStrong? || ev.StartStrikethrough? || ev.EndStyle?)
    ensures AskAll(cfg, RequestOf(cfg, pal, tags, want), Ops(cfg, pal, r, ev))
            == RequestOf(cfg, pal, NextTags(tags, ev), want)
  {
    hide AddChars, StylesOf, SegmentsOf, AskAll, PopLast, ItemMarker, Blanks, TextWidth, InCode, InTitle, Concat;
    var q := RequestOf(cfg, pal, tags, want);
    if ev.EndStyle? {
      ClosedTag(cfg, pal, tags);
      AskOne(cfg, q, PopStyle);
    } else {
      OpenedTag(cfg, pal, tags, Opened(ev).value);
      AskOne(cfg, q, PushStyle(StyleOf(cfg, pal, Opened(ev).value)[0]));
    }
  }

  lemma LinkStartAsks(cfg: Config, pal: Palette, r: Renderer, tags: Tags, want: Draft, url: Option<string>)
    requires !InLink(tags)
    ensures AskAll(cfg, RequestOf(cfg, pal, tags, want), Ops(cfg, pal, r, StartLink(url)))
            == RequestOf(cfg, pal, Snoc(tags, Link(url)), want)
  {
    var q := RequestOf(cfg, pal, tags, want);
    OpenedTag(cfg, pal, tags, Link(url));
    NoLinkOutside(tags);
    AskNothing(cfg, q);
    hide StylesOf, SegmentsOf, AskAll, Concat, Mask;
    AskOne(cfg, q, SetLink(url));
    AskOne(cfg, q, PushStyle(pal.link));
    AskThen(cfg, q, Then(Nil, PushStyle(pal.link)), SetLink(url));
  }

  lemma LinkEndAsks(cfg: Config, pal: Palette, r: Renderer, tags: Tags, want: Draft)
    requires tags.Snoc? && tags.last.Link? && !InLink(tags.init) && r.writer.desired == AttrsOf(cfg, pal, tags)
    ensures AskAll(cfg, RequestOf(cfg, pal, tags, want), Ops(cfg, pal, r, EndLink))
            == RequestOf(cfg, pal, tags.init, WantInline(cfg, pal, tags, want, EndLink))
  {
    hide AddSpan, AddChars, StylesOf, SegmentsOf, AskAll, PopLast, InLink, SpaceAdded, Concat;
    var q := RequestOf(cfg, pal, tags, want);
    ClosedTag(cfg, pal, tags);
    NoLinkOutside(tags.init);
    AskOne(cfg, q, SetLink(None));
    if LinkOf(tags).Some? {
      if cfg.hyperlinks {
        AskThen(cfg, q, Then(Nil, SetLink(None)), PopStyle);
      } else {
        LinkAddressAsks(cfg, q);
      }
    }
  }

  /** Without hyperlinks, an address in the text. */
  lemma LinkAddressAsks(cfg: Config, q: Request)
    requires !cfg.hyperlinks && q.desired.link.Some?
    ensures var here, address := Mask(cfg, q.desired), "<" + q.desired.link.value + ">";
            AskAll(cfg, q, AddChars(Then(Then(Nil, SetLink(None)), AddSpace), address))
            == Request(Attrs(q.desired.styles, None), q.segments,
                 AddSpan(SpaceAdded(q.draft, here, Concat(q.segments)), address, here))
  {
    hide AddSpan, AddChars, AskAll, SpaceAdded, Concat;
    AskOne(cfg, q, SetLink(None));
    AskThen(cfg, q, Then(Nil, SetLink(None)), AddSpace);
    AskChars(cfg, q, Then(Then(Nil, SetLink(None)), AddSpace), "<" + q.desired.link.value + ">");
  }

  /** Blocks that start. */
  lemma BlockStartAsks(cfg: Config, pal: Palette, r: Renderer, tags: Tags, want: Draft, ev: Event)
    requires r.lists == ListsOf(tags) && NestsWell(tags, ev)
             && (ev.StartItem? || (Opened(ev).Some? && !IsInline(Opened(ev).value)))
    ensures AskAll(cfg, RequestOf(cfg, pal, tags, want), Ops(cfg, pal, r, ev))
            == RequestOf(cfg, pal, NextTags(tags, ev), WantStart(cfg, tags, want, ev))
  {
    hide AddChars, StylesOf, SegmentsOf, AskAll, Proper, InCode, InTitle, InLink, ItemMarker, Blanks, TextWidth,
         BlockClosed, LineClosed, WordClosed, Concat;
    var q := RequestOf(cfg, pal, tags, want);
    if ev.StartItem? {
      ItemStartAsks(cfg, pal, r, tags, want);
    } else {
      OpenedTag(cfg, pal, tags, Opened(ev).value);
      AskNothing(cfg, q);
      if ev.StartHeading? || ev.StartTitle? {
        HeadingStartAsks(cfg, q, if ev.StartHeading? then pal.heading else pal.term);
      } else if ev.StartCode? {
        CodeStartAsks(cfg, q, pal.code);
      } else if ev.StartQuote? || ev.StartDefinition? {
        AskOne(cfg, q, PushPrefix(if ev.StartQuote? then QUOTE_PREFIX else DEFINITION_INDENT));
      }
    }
  }

  lemma HeadingStartAsks(cfg: Config, q: Request, style: Style)
    ensures AskAll(cfg, q, Then(Then(Nil, FinishBlock), PushStyle(style)))
            == Request(Attrs(q.desired.styles + [style], q.desired.link), q.segments,
                 BlockClosed(q.draft, Concat(q.segments)))
  {
    hide AskAll, BlockClosed, Concat, Mask;
    AskOne(cfg, q, FinishBlock);
    AskThen(cfg, q, Then(Nil, FinishBlock), PushStyle(style));
  }

  lemma CodeStartAsks(cfg: Config, q: Request, style: Style)
    ensures AskAll(cfg, q,
              Then(Then(Then(Then(Nil, FlushWord), FinishLine), PushPrefix(CODE_INDENT)), PushStyle(style)))
            == Request(Attrs(q.desired.styles + [style], q.desired.link), q.segments + [CODE_INDENT],
                 LineClosed(WordClosed(q.draft, Concat(q.segments))))
  {
    hide AskAll, LineClosed, WordClosed, Concat, Mask;
    var ops := Then(Then(Nil, FlushWord), FinishLine);
    AskOne(cfg, q, FlushWord);
    AskThen(cfg, q, Then(Nil, FlushWord), FinishLine);
    AskThen(cfg, q, ops, PushPrefix(CODE_INDENT));
    AskThen(cfg, q, Then(ops, PushPrefix(CODE_INDENT)), PushStyle(style));
  }

  lemma ItemAsks(cfg: Config, q: Request, marker: string, indent: string)
    ensures AskAll(cfg, q, Then(Then(Then(Then(Nil, FlushWord), FinishLine), SetMarker(marker)), PushPrefix(indent)))
            == Request(q.desired, q.segments + [indent],
                 MarkerSet(LineClosed(WordClosed(q.draft, Concat(q.segments))), Concat(q.segments) + marker))
  {
    hide AskAll, LineClosed, WordClosed, MarkerSet, Concat, Mask;
    var ops := Then(Then(Nil, FlushWord), FinishLine);
    AskOne(cfg, q, FlushWord);
    AskThen(cfg, q, Then(Nil, FlushWord), FinishLine);
    AskThen(cfg, q, ops, SetMarker(marker));
    AskThen(cfg, q, Then(ops, SetMarker(marker)), PushPrefix(indent));
  }

  lemma ItemStartOps(cfg: Config, pal: Palette, r: Renderer, lists: seq<Option<nat>>, next: Option<nat>)
    requires r.lists == lists + [next]
    ensures var marker := ItemMarker(next);
            Ops(cfg, pal, r, StartItem)
            == Then(Then(Then(Then(Nil, FlushWord), FinishLine), SetMarker(marker)),
                    PushPrefix(Blanks(TextWidth(cfg, marker))))
  {
    hide ItemMarker, Blanks, TextWidth;
  }

  /** The tags after an item starts: its list goes on to the next ordinal. */
  lemma ItemStartTags(cfg: Config, pal: Palette, tags: Tags)
    requires tags.Snoc? && tags.last.List?
    ensures AttrsOf(cfg, pal, NextTags(tags, StartItem)) == AttrsOf(cfg, pal, tags)
    ensures SegmentsOf(cfg, NextTags(tags, StartItem))
            == SegmentsOf(cfg, tags) + [Blanks(TextWidth(cfg, ItemMarker(tags.last.next)))]
  {
    hide StylesOf, SegmentsOf, LinkOf, ItemMarker, Blanks, TextWidth;
    var list := Snoc(tags.init, List(NextOrdinal(tags.last.next)));
    var item := Item(ItemMarker(tags.last.next));
    PlainTag(cfg, pal, tags.init, tags.last);
    PlainTag(cfg, pal, tags.init, list.last);
    PlainTag(cfg, pal, list, item);
    assert Snoc(tags.init, tags.last) == tags;
  }

  /** A list or an item styles and links nothing. */
  lemma PlainTag(cfg: Config, pal: Palette, tags: Tags, t: Tag)
    requires t.List? || t.Item?
    ensures StylesOf(cfg, pal, Snoc(tags, t)) == StylesOf(cfg, pal, tags) && LinkOf(Snoc(tags, t)) == LinkOf(tags)
    ensures SegmentsOf(cfg, Snoc(tags, t))
            == if t.List? then SegmentsOf(cfg, tags) else SegmentsOf(cfg, tags) + [Blanks(TextWidth(cfg, t.marker))]
  {
    OpenedTag(cfg, pal, tags, t);
    hide StylesOf, SegmentsOf, Blanks, TextWidth;
  }

  lemma ItemStartAsks(cfg: Config, pal: Palette, r: Renderer, tags: Tags, want: Draft)
    requires r.lists == ListsOf(tags) && tags.Snoc? && tags.last.List?
    ensures AskAll(cfg, RequestOf(cfg, pal, tags, want), Ops(cfg, pal, r, StartItem))
            == RequestOf(cfg, pal, NextTags(tags, StartItem), WantStart(cfg, tags, want, StartItem))
  {
    hide AttrsOf, SegmentsOf, AskAll, ItemMarker, Blanks, TextWidth, Ops, NextTags, LineClosed, WordClosed, MarkerSet,
         Concat;
    var marker := ItemMarker(tags.last.next);
    ItemStartOps(cfg, pal, r, ListsOf(tags.init), tags.last.next);
    ItemStartTags(cfg, pal, tags);
    ItemAsks(cfg, RequestOf(cfg, pal, tags, want), marker, Blanks(TextWidth(cfg, marker)));
  }

  lemma BlockEndTags(cfg: Config, pal: Palette, tags: Tags, ev: Event)
    requires NestsWell(tags, ev) && IsEnd(ev) && !ev.EndStyle? && !ev.EndLink?
    ensures AttrsOf(cfg, pal, NextTags(tags, ev))
            == if ev.EndHeading? || ev.EndTitle? || ev.EndCode?
               then Attrs(PopLast(AttrsOf(cfg, pal, tags).styles), AttrsOf(cfg, pal, tags).link)
               else AttrsOf(cfg, pal, tags)
    ensures SegmentsOf(cfg, NextTags(tags, ev))
            == if PopsPrefix(ev) then PopLast(SegmentsOf(cfg, tags)) else SegmentsOf(cfg, tags)
    ensures ev.EndCode? ==> InCode(tags)
  {
    hide StylesOf, SegmentsOf, PopLast, Proper, InTitle, Blanks, TextWidth, ItemMarker;
    ClosedTag(cfg, pal, tags);
  }

  /** Blocks that end. */
  lemma BlockEndAsks(cfg: Config, pal: Palette, r: Renderer, tags: Tags, want: Draft, ev: Event)
    requires NestsWell(tags, ev) && IsEnd(ev) && !ev.EndStyle? && !ev.EndLink?
    ensures AskAll(cfg, RequestOf(cfg, pal, tags, want), Ops(cfg, pal, r, ev))
            == RequestOf(cfg, pal, NextTags(tags, ev), WantEnd(cfg, tags, want, ev))
  {
    hide AddChars, AttrsOf, SegmentsOf, AskAll, PopLast, InTitle, ItemMarker, Blanks, TextWidth, NextTags, LineClosed,
         BlockClosed, WordClosed, Concat;
    var q := RequestOf(cfg, pal, tags, want);
    BlockEndTags(cfg, pal, tags, ev);
    AskNothing(cfg, q);
    if ev.EndCode? {
      CodeEndAsks(cfg, q);
    } else if ev.EndList? {
      AskOne(cfg, q, FinishBlock);
    } else if !ev.EndDefinitions? {
      var pop := if ev.EndHeading? || ev.EndTitle? then PopStyle else PopPrefix;
      var end := if ev.EndItem? || ev.EndTitle? then FinishLine else FinishBlock;
      FlushEndAsks(cfg, q, pop, end);
    }
  }

  lemma CodeEndAsks(cfg: Config, q: Request)
    ensures AskAll(cfg, q, Then(Then(Then(Nil, PopStyle), PopPrefix), FinishBlock))
            == Request(Attrs(PopLast(q.desired.styles), q.desired.link), PopLast(q.segments),
                 BlockClosed(q.draft, Concat(PopLast(q.segments))))
  {
    hide AskAll, PopLast, BlockClosed, Concat, Mask;
    AskOne(cfg, q, PopStyle);
    AskThen(cfg, q, Then(Nil, PopStyle), PopPrefix);
    AskThen(cfg, q, Then(Then(Nil, PopStyle), PopPrefix), FinishBlock);
  }

  /** The word, what the block has pushed, and the line or block end. */
  lemma FlushEndAsks(cfg: Config, q: Request, pop: Op, end: Op)
    requires (pop == PopStyle || pop == PopPrefix) && (end == FinishLine || end == FinishBlock)
    ensures var ended := WordClosed(q.draft, Concat(q.segments));
            && AskAll(cfg, q, Then(Then(Nil, FlushWord), end))
               == q.(draft := if end == FinishLine then LineClosed(ended) else BlockClosed(ended, Concat(q.segments)))
            && var q1 := Ask(cfg, q, pop);
               AskAll(cfg, q, Then(Then(Then(Nil, FlushWord), pop), end))
               == q1.(draft := if end == FinishLine then LineClosed(ended)
                               else BlockClosed(ended, Concat(q1.segments)))
  {
    hide AskAll, PopLast, LineClosed, BlockClosed, WordClosed, Concat, Mask;
    AskOne(cfg, q, FlushWord);
    AskThen(cfg, q, Then(Nil, FlushWord), end);
    AskThen(cfg, q, Then(Nil, FlushWord), pop);
    AskThen(cfg, q, Then(Then(Nil, FlushWord), pop), end);
  }

  lemma NextTagsProper(tags: Tags, ev: Event)
    requires Proper(tags) && NestsWell(tags, ev)
    ensures Proper(NextTags(tags, ev))
  {
    if ev.StartItem? {
      assert Proper(Snoc(tags.init, List(NextOrdinal(tags.last.next))));
    }
  }

  lemma NextListsFollow(r: Renderer, tags: Tags, ev: Event)
    requires NestsWell(tags, ev) && r.lists == ListsOf(tags)
    ensures NextLists(r, ev) == ListsOf(NextTags(tags, ev))
  {
    hide Proper, ItemMarker, InCode, InTitle, InLink;
    if tags.Snoc? && tags.last.List? {
      Popped(ListsOf(tags.init), tags.last.next);
      assert r.lists == ListsOf(tags.init) + [tags.last.next];
      assert NextLists(r, StartItem) == ListsOf(tags.init) + [NextOrdinal(tags.last.next)];
    }
    if ev.StartList? {
      assert Opened(ev) == Some(List(ev.start));
    }
  }

  lemma ClosedBlock(tags: Tags, ev: Event)
    requires Proper(tags) && tags.Snoc? && Closes(ev, tags.last)
    ensures BlockOf(tags.init) == if ev.EndCode? || ev.EndTitle? then Normal else BlockOf(tags)
  {
  }

  lemma NextBlockFollows(r: Renderer, tags: Tags, ev: Event)
    requires Proper(tags) && NestsWell(tags, ev) && r.block == BlockOf(tags)
    ensures NextBlock(r, ev) == BlockOf(NextTags(tags, ev))
  {
    if ev.StartItem? {
      var list := Snoc(tags.init, List(NextOrdinal(tags.last.next)));
      assert InCode(list) == InCode(tags) && InTitle(list) == InTitle(tags);
      hide ItemMarker;
    } else if IsEnd(ev) {
      ClosedBlock(tags, ev);
      hide BlockOf;
    } else {
      hide ItemMarker, Proper;
    }
  }

  /** The operations for an event ask for what the event asks for. */
  lemma EventAsks(cfg: Config, pal: Palette, r: Renderer, tags: Tags, want: Draft, ev: Event)
    requires Tracks(cfg, pal, r, tags, want) && NestsWell(tags, ev)
    ensures AskAll(cfg, RequestOf(cfg, pal, tags, want), Ops(cfg, pal, r, ev))
            == RequestOf(cfg, pal, NextTags(tags, ev), WantNext(cfg, pal, tags, want, ev))
  {
    hide Ops, WantInline, WantStart, WantEnd, StylesOf, SegmentsOf, LinkOf, Holds, Inv, AskAll;
    OtherWants(cfg, pal, tags, want, ev);
    if ev.Text? || ev.CodeSpan? || ev.SoftBreak? || ev.HardBreak? || ev.Unsupported? {
      TextAsks(cfg, pal, r, tags, want, ev);
    } else if ev.StartItem? || (Opened(ev).Some? && !IsInline(Opened(ev).value)) {
      BlockStartAsks(cfg, pal, r, tags, want, ev);
    } else if IsEnd(ev) && !ev.EndStyle? && !ev.EndLink? {
      BlockEndAsks(cfg, pal, r, tags, want, ev);
    } else if ev.StartLink? {
      LinkStartAsks(cfg, pal, r, tags, want, ev.url);
    } else if ev.EndLink? {
      LinkEndAsks(cfg, pal, r, tags, want);
    } else {
      StyleAsks(cfg, pal, r, tags, want, ev);
    }
  }

  /** Inline tags that start, and styles that end, want nothing of the text. */
  lemma OtherWants(cfg: Config, pal: Palette, tags: Tags, want: Draft, ev: Event)
    ensures Opened(ev).Some? && IsInline(Opened(ev).value) ==> WantStart(cfg, tags, want, ev) == want
    ensures ev.EndStyle? ==> WantEnd(cfg, tags, want, ev) == want
  {
    hide WordClosed, BlockClosed, LineClosed, ItemMarker, Concat;
  }

  /** Each event leaves the renderer where the tags then open say, with the text wanted
      by then. */
  lemma EventTracked(cfg: Config, pal: Palette, r: Renderer, tags: Tags, want: Draft, ev: Event)
    requires Tracks(cfg, pal, r, tags, want) && NestsWell(tags, ev)
    ensures Accepts(r, ev)
    ensures Tracks(cfg, pal, Handle(cfg, pal, r, ev), NextTags(tags, ev), WantNext(cfg, pal, tags, want, ev))
  {
    NestedIsAccepted(cfg, pal, r, tags, want, ev);
    EventSound(cfg, pal, r, ev);
    EventMarksStart(cfg, pal, r, ev);
    RunSound(cfg, r.writer, Ops(cfg, pal, r, ev), RequestOf(cfg, pal, tags, want));
    EventAsks(cfg, pal, r, tags, want, ev);
    NextTagsProper(tags, ev);
    NextListsFollow(r, tags, ev);
    NextBlockFollows(r, tags, ev);
    hide Ops, Run, AskAll, RequestOf, Meets, WantNext, NextTags, NextLists, NextBlock, BlockOf, ListsOf, Proper;
  }

  /** A well-nested stream never panics, leaves exactly the styles, link and prefixes of the
      tags still open, and has had its text written or buffered. */
  lemma {:induction false} StreamTracked(cfg: Config, pal: Palette, evs: Rev<Event>)
    requires WellNested(evs)
    ensures AcceptsAll(cfg, pal, START, evs)
    ensures Tracks(cfg, pal, HandleAll(cfg, pal, START, evs), TagsAfter(evs), WantAll(cfg, pal, evs))
  {
    match evs
    case Nil =>
    case Snoc(init, ev) =>
      StreamTracked(cfg, pal, init);
      EventTracked(cfg, pal, HandleAll(cfg, pal, START, init), TagsAfter(init), WantAll(cfg, pal, init), ev);
      hide Tracks, Handle, NextTags, WantNext, NestsWell;
  }

  function Rendered(cfg: Config, pal: Palette, evs: Rev<Event>): Rev<Item> {
    Finish(cfg, HandleAll(cfg, pal, START, evs).writer)
  }

  /** What a stream asks for, from its events alone. */
  function Wanted(cfg: Config, pal: Palette, evs: Rev<Event>): Page {
    Whole(WantAll(cfg, pal, evs), PrefixOf(cfg, TagsAfter(evs)))
  }

  /** For every well-nested stream with its code blocks closed, the finished output shows
      the text that the events ask for, line by line: the prefix of each line, every
      character and every breakable space, with the styles and the link of the tags around it
      (as far as color and hyperlinks are on), and every line end, those of empty lines of
      code and of lines that separate blocks too. Only may a line end, and the next one start
      with its prefix, in place of a breakable space, and are the last blanks of a line missing,
      as far as they are shown alike. No style or link crosses a line end and prefixes are
      plain; and each line fits the width or has no place left to break at. */
  lemma RenderedSound(cfg: Config, pal: Palette, evs: Rev<Event>)
    requires WellNested(evs) && !InCode(TagsAfter(evs))
    ensures var out := Rendered(cfg, pal, evs);
            && Shows(View(out), Wanted(cfg, pal, evs), More)
            && CleanEnds(out) && Shown(out) == PLAIN && PrefixesPlain(out)
            && LinesFit(cfg, out) && SpacesTidy(out)
  {
    var tags, want := TagsAfter(evs), WantAll(cfg, pal, evs);
    StreamTracked(cfg, pal, evs);
    hide HandleAll, TagsAfter, WantAll, WellNested, Shows, Holds, Whole, Concat;
    FinishSound(cfg, HandleAll(cfg, pal, START, evs).writer, RequestOf(cfg, pal, tags, want));
  }

  // ----- chunking -----

  lemma {:induction false} TextOpsConcat(ops: Rev<Op>, a: string, b: string)
    ensures TextOps(ops, a + b) == TextOps(TextOps(ops, a), b)
    ensures VerbatimOps(ops, a + b) == VerbatimOps(VerbatimOps(ops, a), b)
  {
    if b == "" {
      assert a + b == a;
    } else {
      TextOpsConcat(ops, a, b[..|b| - 1]);
      assert (a + b)[..|a + b| - 1] == a + b[..|b| - 1];
    }
  }

  lemma {:induction false} RunText(cfg: Config, w: Writer, ops: Rev<Op>, s: string)
    ensures Run(cfg, w, TextOps(ops, s)) == Run(cfg, Run(cfg, w, ops), TextOps(Nil, s))
    ensures Run(cfg, w, VerbatimOps(ops, s)) == Run(cfg, Run(cfg, w, ops), VerbatimOps(Nil, s))
  {
    if s != "" {
      RunText(cfg, w, ops, s[..|s| - 1]);
    }
  }

  /** It does not matter how text is cut into events, inside or outside a code block:
      not at a word's middle, in a run of blanks, nor at a line end. */
  lemma ChunkingDoesNotMatter(cfg: Config, pal: Palette, r: Renderer, a: string, b: string)
    ensures Handle(cfg, pal, Handle(cfg, pal, r, Text(a)), Text(b)) == Handle(cfg, pal, r, Text(a + b))
  {
    TextOpsConcat(Nil, a, b);
    RunText(cfg, r.writer, TextOps(Nil, a), b);
    RunText(cfg, r.writer, VerbatimOps(Nil, a), b);
  }
}
