/** The renderer as it runs: an object that drives a line writer event by event. */
module HelpRendering {
  import opened Wrappers
  import opened CharClasses
  import opened LineLayout
  import opened LineWriting
  import Spec = HelpRenderer
  import Doc = HelpEvents
  import opened DecimalText

  /** Several blanks in a row ask for no more than one of them. */
  lemma {:induction false} SpaceRun(cfg: Config, w: Writer, s: string)
    requires s != "" && forall i | 0 <= i < |s| :: IsWhitespace(s[i])
    ensures Run(cfg, w, Spec.TextOps(Nil, s)) == Step(cfg, w, AddSpace)
  {
    var n := |s| - 1;
    if n > 0 {
      SpaceRun(cfg, w, s[..n]);
      FlushEmpties(cfg, w);
    } else {
      assert s[..0] == "";
      assert Run(cfg, w, Spec.TextOps(Nil, s[..0])) == w;
    }
  }

  lemma FlushEmpties(cfg: Config, w: Writer)
    ensures Flush(cfg, w).word == Nil && Flush(cfg, w).desired == w.desired
  {
    if w.word.Snoc? {
      var w0 := w.(pending := None, word := Nil);
      var w1: Writer :=
        if w.line.Open? then
          if w.pending.None? then w0
          else if w.line.column + 1 + WordWidth(cfg, w.word) > cfg.width then OpenLine(cfg, EndLine(cfg, w0))
          else Put(cfg, w0, Cell(' ', w.pending.value), Space)
        else OpenLine(cfg, w0);
      PutAllKeepsRest(cfg, w1, w.word, Word);
    }
  }

  lemma {:induction false} PutAllKeepsRest(cfg: Config, w: Writer, cells: Rev<Cell>, role: Role)
    ensures PutAll(cfg, w, cells, role).word == w.word && PutAll(cfg, w, cells, role).desired == w.desired
  {
    if cells.Snoc? {
      PutAllKeepsRest(cfg, w, cells.init, role);
    }
  }

  /** A run of word characters is one segment. */
  lemma {:induction false} WordRun(cfg: Config, w: Writer, s: string)
    requires forall i | 0 <= i < |s| :: !IsWhitespace(s[i])
    ensures Run(cfg, w, Spec.TextOps(Nil, s)) == w.(word := AppendCells(w.word, s, w.desired))
  {
    if s != "" {
      WordRun(cfg, w, s[..|s| - 1]);
    }
  }

  lemma RunOne(cfg: Config, w: Writer, a: Op)
    ensures Run(cfg, w, Spec.Then(Nil, a)) == Step(cfg, w, a)
  {
    assert Run(cfg, w, Nil) == w;
  }

  lemma RunNone(cfg: Config, w: Writer)
    ensures Run(cfg, w, Nil) == w
  {
  }

  lemma RunLast(cfg: Config, w: Writer, ops: Rev<Op>, a: Op)
    ensures Run(cfg, w, Spec.Then(ops, a)) == Step(cfg, Run(cfg, w, ops), a)
  {
  }

  lemma RunTwo(cfg: Config, w: Writer, a: Op, b: Op)
    ensures Run(cfg, w, Spec.Then(Spec.Then(Nil, a), b)) == Step(cfg, Step(cfg, w, a), b)
  {
    RunOne(cfg, w, a);
  }

  lemma RunThree(cfg: Config, w: Writer, a: Op, b: Op, c: Op)
    ensures Run(cfg, w, Spec.Then(Spec.Then(Spec.Then(Nil, a), b), c)) == Step(cfg, Step(cfg, Step(cfg, w, a), b), c)
  {
    RunTwo(cfg, w, a, b);
  }

  lemma RunFour(cfg: Config, w: Writer, a: Op, b: Op, c: Op, d: Op)
    ensures Run(cfg, w, Spec.Then(Spec.Then(Spec.Then(Spec.Then(Nil, a), b), c), d))
            == Step(cfg, Step(cfg, Step(cfg, Step(cfg, w, a), b), c), d)
  {
    RunThree(cfg, w, a, b, c);
  }

  class Renderer {
    const pal: Doc.Palette
    const writer: LineWriter
    var block: Spec.Block
    var lists: seq<Option<nat>>
    var dropped: seq<string>

    ghost predicate Valid()
      reads this, writer
    {
      writer.Valid()
    }

    ghost function State(): Spec.Renderer
      reads this, writer
    {
      Spec.Renderer(writer.State(), block, lists, dropped)
    }

    constructor (cfg: Config, pal: Doc.Palette)
      ensures Valid() && fresh(writer) && State() == Spec.START && this.pal == pal && writer.cfg == cfg
    {
      this.pal := pal;
      writer := new LineWriter(cfg);
      block, lists, dropped := Spec.Normal, [], [];
    }

    /** Splits text into runs of blanks and runs of other characters. */
    method PushText(s: string)
      requires Valid()
      modifies writer
      ensures Valid() && writer.State() == Run(writer.cfg, old(writer.State()), Spec.TextOps(Nil, s))
    {
      hide Run, Spec.TextOps, IsWhitespace, Renderer.Valid;
      TextStart(writer.cfg, writer.State(), s);
      if s == "" {
        return;
      }
      ghost var w := writer.State();
      var runStart, runIsBlank := 0, IsWhitespace(s[0]);
      var i := 1;
      while i < |s|
        invariant 0 <= runStart < i <= |s| && Valid()
        invariant forall k | runStart <= k < i :: IsWhitespace(s[k]) == runIsBlank
        invariant writer.State() == Run(writer.cfg, w, Spec.TextOps(Nil, s[..runStart]))
      {
        if IsWhitespace(s[i]) != runIsBlank {
          EmitRun(s[runStart..i], runIsBlank);
          TextJoin(writer.cfg, w, s, runStart, i);
          runStart, runIsBlank := i, IsWhitespace(s[i]);
        }
        i := i + 1;
      }
      EmitRun(s[runStart..], runIsBlank);
      TextJoin(writer.cfg, w, s, runStart, |s|);
      assert s[..|s|] == s;
    }

    static lemma TextStart(cfg: Config, w: Writer, s: string)
      ensures Run(cfg, w, Spec.TextOps(Nil, s[..0])) == w
      ensures s == "" ==> Run(cfg, w, Spec.TextOps(Nil, s)) == w
    {
      assert s[..0] == "";
      assert Run(cfg, w, Nil) == w;
    }

    method EmitRun(run: string, isBlank: bool)
      requires Valid() && run != "" && forall k | 0 <= k < |run| :: IsWhitespace(run[k]) == isBlank
      modifies writer
      ensures Valid() && writer.State() == Run(writer.cfg, old(writer.State()), Spec.TextOps(Nil, run))
    {
      if isBlank {
        SpaceRun(writer.cfg, writer.State(), run);
        writer.AddSpace();
      } else {
        WordRun(writer.cfg, writer.State(), run);
        writer.AddSegment(run);
      }
    }

    static lemma TextJoin(cfg: Config, w: Writer, s: string, i: nat, j: nat)
      requires i <= j <= |s|
      ensures Run(cfg, w, Spec.TextOps(Nil, s[..j]))
              == Run(cfg, Run(cfg, w, Spec.TextOps(Nil, s[..i])), Spec.TextOps(Nil, s[i..j]))
    {
      assert s[..j] == s[..i] + s[i..j];
      Spec.TextOpsConcat(Nil, s[..i], s[i..j]);
      Spec.RunText(cfg, w, Spec.TextOps(Nil, s[..i]), s[i..j]);
    }

    method Handle(ev: Doc.Event)
      requires Valid() && Spec.NoPanic(State(), ev)
      modifies this, writer
      ensures Valid() && State() == Spec.Handle(writer.cfg, pal, old(State()), ev)
    {
      if Spec.EndsLine(ev) {
        HandleEnding(ev);
      } else {
        HandleInline(ev);
      }
    }

    /** The events that end lines and blocks. */
    method HandleEnding(ev: Doc.Event)
      requires Valid() && Spec.NoPanic(State(), ev) && Spec.EndsLine(ev)
      modifies this, writer
      ensures Valid() && State() == Spec.Handle(writer.cfg, pal, old(State()), ev)
    {
      if ev.EndParagraph? || ev.EndQuote? || ev.EndDefinition? || ev.EndItem? {
        HandleBlockEnd(ev);
      } else if ev.EndList? {
        EndList();
      } else if ev.HardBreak? {
        HardBreak();
      } else if ev.StartItem? {
        StartItem();
      } else if ev.StartCode? || ev.EndCode? {
        HandleCode(ev);
      } else {
        HandleTitle(ev);
      }
    }

    /** The ends of paragraphs, quotes, definitions and list items. */
    method HandleBlockEnd(ev: Doc.Event)
      requires Valid() && Spec.NoPanic(State(), ev)
      requires ev.EndParagraph? || ev.EndQuote? || ev.EndDefinition? || ev.EndItem?
      modifies writer
      ensures Valid() && State() == Spec.Handle(writer.cfg, pal, old(State()), ev)
    {
      hide Run, Step, NatText, LineWriter.Valid;
      ghost var cfg, w := writer.cfg, writer.State();
      ghost var ops := Spec.Ops(cfg, pal, State(), ev);
      writer.FlushWord();
      if ev.EndParagraph? {
        RunTwo(cfg, w, FlushWord, FinishBlock);
        writer.EndBlock();
      } else {
        RunThree(cfg, w, FlushWord, PopPrefix, if ev.EndItem? then FinishLine else FinishBlock);
        writer.PopPrefix();
        if ev.EndItem? {
          writer.EndLine();
        } else {
          writer.EndBlock();
        }
      }
      assert writer.State() == Run(cfg, w, ops);
    }

    method EndList()
      requires Valid()
      modifies this, writer
      ensures Valid() && State() == Spec.Handle(writer.cfg, pal, old(State()), Doc.EndList)
    {
      RunOne(writer.cfg, writer.State(), FinishBlock);
      hide Run, Step;
      lists := PopLast(lists);
      writer.EndBlock();
    }

    method HardBreak()
      requires Valid()
      modifies writer
      ensures Valid() && State() == Spec.Handle(writer.cfg, pal, old(State()), Doc.HardBreak)
    {
      RunTwo(writer.cfg, writer.State(), FlushWord, FinishLine);
      hide Run, Step;
      writer.HardBreak();
    }

    method HandleCode(ev: Doc.Event)
      requires Valid() && Spec.NoPanic(State(), ev) && (ev.StartCode? || ev.EndCode?)
      modifies this, writer
      ensures Valid() && State() == Spec.Handle(writer.cfg, pal, old(State()), ev)
    {
      hide Run, NatText, LineWriter.Valid;
      ghost var cfg, w := writer.cfg, writer.State();
      ghost var ops := Spec.Ops(cfg, pal, State(), ev);
      assert Step(cfg, w, PopStyle).segments == w.segments;
      hide Step;
      if ev.StartCode? {
        RunFour(cfg, w, FlushWord, FinishLine, PushPrefix(Doc.CODE_INDENT), PushStyle(pal.code));
        writer.FlushWord();
        writer.EndLine();
        writer.PushPrefix(Doc.CODE_INDENT);
        block := Spec.Code;
        writer.PushStyle(pal.code);
        assert writer.State() == Run(cfg, w, ops);
      } else {
        RunThree(cfg, w, PopStyle, PopPrefix, FinishBlock);
        block := Spec.Normal;
        writer.PopStyle();
        writer.PopPrefix();
        writer.EndBlock();
        assert writer.State() == Run(cfg, w, ops);
      }
    }

    /** Headings and definition titles. */
    method HandleTitle(ev: Doc.Event)
      requires Valid() && (ev.StartHeading? || ev.EndHeading? || ev.StartTitle? || ev.EndTitle?)
      modifies this, writer
      ensures Valid() && State() == Spec.Handle(writer.cfg, pal, old(State()), ev)
    {
      hide Run, Step, NatText, LineWriter.Valid, LineWriter.State;
      ghost var cfg, w := writer.cfg, writer.State();
      ghost var ops := Spec.Ops(cfg, pal, State(), ev);
      if ev.StartHeading? {
        RunTwo(cfg, w, FinishBlock, PushStyle(pal.heading));
        writer.EndBlock();
        writer.PushStyle(pal.heading);
        assert writer.State() == Run(cfg, w, ops);
      } else if ev.EndHeading? {
        RunThree(cfg, w, FlushWord, PopStyle, FinishBlock);
        writer.FlushWord();
        writer.PopStyle();
        writer.EndBlock();
        assert writer.State() == Run(cfg, w, ops);
      } else if ev.StartTitle? {
        RunTwo(cfg, w, FinishBlock, PushStyle(pal.term));
        writer.EndBlock();
        writer.PushStyle(pal.term);
        block := Spec.Term;
        assert writer.State() == Run(cfg, w, ops);
      } else {
        RunThree(cfg, w, FlushWord, PopStyle, FinishLine);
        writer.FlushWord();
        block := Spec.Normal;
        writer.PopStyle();
        writer.EndLine();
        assert writer.State() == Run(cfg, w, ops);
      }
    }

    method StartItem()
      requires Valid() && lists != []
      modifies this, writer
      ensures Valid() && State() == Spec.Handle(writer.cfg, pal, old(State()), Doc.StartItem)
    {
      ghost var cfg, w := writer.cfg, writer.State();
      writer.FlushWord();
      writer.EndLine();
      var n := |lists| - 1;
      var marker := Doc.ItemMarker(lists[n]);
      if lists[n].Some? {
        lists := lists[..n] + [Some(lists[n].value + 1)];
      }
      var indent := Doc.Blanks(TextWidth(writer.cfg, marker));
      RunFour(cfg, w, FlushWord, FinishLine, SetMarker(marker), PushPrefix(indent));
      hide Run, Step, NatText, Doc.ItemMarker;
      writer.SetItemMarker(marker);
      writer.PushPrefix(indent);
    }

    /** The events inside a paragraph, and those that do no more than push a prefix. */
    method HandleInline(ev: Doc.Event)
      requires Valid() && Spec.NoPanic(State(), ev) && !Spec.EndsLine(ev)
      modifies this, writer
      ensures Valid() && State() == Spec.Handle(writer.cfg, pal, old(State()), ev)
    {
      hide Run, Step, Spec.TextOps, Spec.VerbatimOps, Concat;
      if ev.StartLink? {
        StartLink(ev.url);
      } else if ev.EndLink? {
        EndLink();
      } else if ev.Text? {
        if block.Code? {
          writer.WriteVerbatim(ev.text);
        } else {
          PushText(ev.text);
        }
      } else if ev.CodeSpan? {
        InlineCode(ev.code);
      } else {
        HandlePlain(ev);
      }
    }

    /** Events that push a prefix or a style, ask for a space, or write nothing. */
    method HandlePlain(ev: Doc.Event)
      requires Valid() && Spec.NoPanic(State(), ev) && !Spec.EndsLine(ev)
      requires !ev.StartLink? && !ev.EndLink? && !ev.Text? && !ev.CodeSpan?
      modifies this, writer
      ensures Valid() && State() == Spec.Handle(writer.cfg, pal, old(State()), ev)
    {
      ghost var cfg, w := writer.cfg, writer.State();
      RunNone(cfg, w);
      hide Run, Flush, EndLine, Concat;
      if ev.StartQuote? || ev.StartDefinition? {
        var prefix := if ev.StartQuote? then Doc.QUOTE_PREFIX else Doc.DEFINITION_INDENT;
        RunOne(cfg, w, PushPrefix(prefix));
        writer.PushPrefix(prefix);
      } else if ev.StartEmphasis? || ev.StartStrong? || ev.StartStrikethrough? {
        var style := if ev.StartEmphasis? then pal.emphasis else if ev.StartStrong? then pal.strong
                     else pal.strikethrough;
        RunOne(cfg, w, PushStyle(style));
        writer.PushStyle(style);
      } else if ev.EndStyle? {
        RunOne(cfg, w, PopStyle);
        writer.PopStyle();
      } else if ev.SoftBreak? {
        RunOne(cfg, w, AddSpace);
        writer.AddSpace();
      } else if ev.StartList? {
        lists := lists + [ev.start];
      } else if ev.Unsupported? {
        dropped := dropped + [ev.name];
      }
    }

    method StartLink(url: Option<string>)
      requires Valid()
      modifies writer
      ensures Valid() && State() == Spec.Handle(writer.cfg, pal, old(State()), Doc.StartLink(url))
    {
      ghost var cfg, w := writer.cfg, writer.State();
      RunOne(cfg, w, SetLink(url));
      RunTwo(cfg, w, PushStyle(pal.link), SetLink(url));
      assert Run(cfg, w, Nil) == w;
      hide Run;
      if url.Some? {
        if writer.cfg.hyperlinks {
          writer.PushStyle(pal.link);
        }
        writer.SetLink(url);
      }
    }

    /** Without hyperlinks the address is shown in the text, after a space. */
    method EndLink()
      requires Valid()
      modifies writer
      ensures Valid() && State() == Spec.Handle(writer.cfg, pal, old(State()), Doc.EndLink)
    {
      ghost var cfg, w := writer.cfg, writer.State();
      RunOne(cfg, w, SetLink(None));
      RunTwo(cfg, w, SetLink(None), PopStyle);
      RunTwo(cfg, w, SetLink(None), AddSpace);
      ghost var spaced := Spec.Then(Spec.Then(Nil, SetLink(None)), AddSpace);
      var link := writer.TakeLink();
      if link.Some? {
        if writer.cfg.hyperlinks {
          writer.PopStyle();
        } else {
          var text := "<" + link.value + ">";
          CharsRun(cfg, w, spaced, text);
          hide Run;
          writer.AddSpace();
          writer.AddSegment(text);
        }
      }
    }

    /** A definition term is fully styled already, so code in it gets no style. */
    method InlineCode(code: string)
      requires Valid() && !block.Code?
      modifies writer
      ensures Valid() && State() == Spec.Handle(writer.cfg, pal, old(State()), Doc.CodeSpan(code))
    {
      SpanHandled(writer.cfg, pal, State(), code);
      hide Spec.Handle, AppendCells, Flush, EndLine, OpenLine, Concat;
      if block.Term? {
        writer.AddSegment(code);
      } else {
        StylePopped(writer.State().desired.styles, pal.code);
        writer.PushStyle(pal.code);
        writer.AddSegment(code);
        writer.PopStyle();
      }
    }
  }

  lemma StylePopped(styles: seq<Style>, style: Style)
    ensures PopLast(styles + [style]) == styles
  {
  }

  /** Inline code joins the word, in its style outside a definition's title. */
  lemma SpanHandled(cfg: Config, pal: Doc.Palette, r: Spec.Renderer, code: string)
    requires !r.block.Code?
    ensures var w := r.writer;
            var attrs := if r.block.Term? then w.desired else Attrs(w.desired.styles + [pal.code], w.desired.link);
            Spec.Handle(cfg, pal, r, Doc.CodeSpan(code)) == r.(writer := w.(word := AppendCells(w.word, code, attrs)))
  {
    var w, styled := r.writer, Spec.Then(Nil, PushStyle(pal.code));
    hide Run, Spec.AddChars, Flush, EndLine, OpenLine, Concat, PopLast, AppendCells;
    RunNone(cfg, w);
    RunOne(cfg, w, PushStyle(pal.code));
    CharsRun(cfg, w, Nil, code);
    CharsRun(cfg, w, styled, code);
    RunLast(cfg, w, Spec.AddChars(styled, code), PopStyle);
    StylePopped(w.desired.styles, pal.code);
  }

  /** Renders a whole stream of events. */
  method Render(cfg: Config, pal: Doc.Palette, events: seq<Doc.Event>) returns (out: seq<Item>, dropped: seq<string>)
    requires Spec.AcceptsAll(cfg, pal, Spec.START, FromSeq(events))
    ensures FromSeq(out) == Spec.Rendered(cfg, pal, FromSeq(events))
    ensures dropped == Spec.HandleAll(cfg, pal, Spec.START, FromSeq(events)).dropped
  {
    var r := new Renderer(cfg, pal);
    var i := 0;
    assert events[..0] == [];
    assert events[..|events|] == events;
    while i < |events|
      invariant 0 <= i <= |events| && r.Valid() && fresh(r) && fresh(r.writer) && r.writer.cfg == cfg && r.pal == pal
      invariant r.State() == Spec.HandleAll(cfg, pal, Spec.START, FromSeq(events[..i]))
    {
      assert events[..i + 1][..i] == events[..i];
      AcceptedPrefix(cfg, pal, events, i);
      r.Handle(events[i]);
      i := i + 1;
    }
    dropped := r.dropped;
    out := r.writer.Finish();
  }

  lemma {:induction false} AcceptedPrefix(cfg: Config, pal: Doc.Palette, events: seq<Doc.Event>, i: nat)
    requires i < |events| && Spec.AcceptsAll(cfg, pal, Spec.START, FromSeq(events))
    ensures Spec.Accepts(Spec.HandleAll(cfg, pal, Spec.START, FromSeq(events[..i])), events[i])
  {
    var n := |events| - 1;
    if i < n {
      AcceptedPrefix(cfg, pal, events[..n], i);
      assert events[..n][..i] == events[..i];
    }
  }
}
