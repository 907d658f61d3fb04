/** The line writer as it runs: it buffers spans, writes runs of text at once, and keeps
    its output in a flat buffer. Every method does what the layout functions say. */
module LineWriting {
  import opened Wrappers
  import opened LineLayout
  import opened HelpRenderer
  import opened TextLines

  datatype Span = Span(text: string, desired: Attrs)

  lemma FromSeqPush(s: seq<Item>, item: Item)
    ensures FromSeq(s + [item]) == Snoc(FromSeq(s), item)
  {
    assert (s + [item])[..|s|] == s;
  }

  /** A run of text as cells that all have the same attributes. */
  lemma FromSeqNil(s: seq<Item>)
    ensures FromSeq(s) == Nil <==> s == []
  {
  }

  function AppendCells(cells: Rev<Cell>, text: string, attrs: Attrs): Rev<Cell> {
    if text == "" then cells else Snoc(AppendCells(cells, text[..|text| - 1], attrs), Cell(text[|text| - 1], attrs))
  }

  function Flat(spans: seq<Span>): Rev<Cell> {
    if spans == [] then Nil
    else AppendCells(Flat(spans[..|spans| - 1]), spans[|spans| - 1].text, spans[|spans| - 1].desired)
  }

  lemma FlatPush(spans: seq<Span>, span: Span)
    ensures Flat(spans + [span]) == AppendCells(Flat(spans), span.text, span.desired)
  {
    assert (spans + [span])[..|spans|] == spans;
  }

  lemma {:induction false} AppendCellsWidth(cfg: Config, cells: Rev<Cell>, text: string, attrs: Attrs)
    ensures WordWidth(cfg, AppendCells(cells, text, attrs)) == WordWidth(cfg, cells) + TextWidth(cfg, text)
    ensures text != "" ==> AppendCells(cells, text, attrs) != Nil
  {
    if text != "" {
      AppendCellsWidth(cfg, cells, text[..|text| - 1], attrs);
    }
  }

  lemma {:induction false} PutAllAppend(cfg: Config, w: Writer, cells: Rev<Cell>, text: string, attrs: Attrs,
                                        role: Role)
    ensures PutAll(cfg, w, AppendCells(cells, text, attrs), role)
            == PutAll(cfg, PutAll(cfg, w, cells, role), AppendCells(Nil, text, attrs), role)
  {
    if text != "" {
      PutAllAppend(cfg, w, cells, text[..|text| - 1], attrs, role);
    }
  }

  function Glyphs(out: Rev<Item>, text: string, role: Role): Rev<Item> {
    if text == "" then out else Snoc(Glyphs(out, text[..|text| - 1], role), Glyph(text[|text| - 1], role))
  }

  lemma {:induction false} GlyphsArePrefix(out: Rev<Item>, text: string)
    ensures Glyphs(out, text, Prefix) == PrefixText(out, text)
  {
    if text != "" {
      GlyphsArePrefix(out, text[..|text| - 1]);
    }
  }

  lemma SyncAgain(cfg: Config, out: Rev<Item>, emitted: Attrs, a: Attrs)
    ensures Sync(cfg, out, Synced(cfg, emitted, a), a) == out
    ensures Synced(cfg, Synced(cfg, emitted, a), a) == Synced(cfg, emitted, a)
  {
  }

  /** One sync, one write and one addition for a whole run of text, or one each for every
      character: the same output, minimal either way. */
  lemma {:induction false} PutRun(cfg: Config, w: Writer, text: string, a: Attrs, role: Role)
    requires w.line.Open? && text != ""
    ensures PutAll(cfg, w, AppendCells(Nil, text, a), role) ==
            w.(out := Glyphs(Sync(cfg, w.out, w.line.emitted, a), text, role),
               line := Open(w.line.column + TextWidth(cfg, text), Synced(cfg, w.line.emitted, a)))
  {
    var n := |text| - 1;
    hide Sync, Synced;
    if n == 0 {
      assert text[..0] == "";
      assert AppendCells(Nil, text[..0], a) == Nil;
      assert PutAll(cfg, w, Nil, role) == w;
    } else {
      PutRun(cfg, w, text[..n], a, role);
      var w1 := PutAll(cfg, w, AppendCells(Nil, text[..n], a), role);
      SyncAgain(cfg, w1.out, w.line.emitted, a);
    }
  }

  /** Lines open and end, and spaces are written, in the same way whatever is buffered. */
  lemma BufferDoesNotMatter(cfg: Config, w: Writer, cell: Cell)
    ensures EndLine(cfg, w.(word := Nil)) == EndLine(cfg, w).(word := Nil)
    ensures OpenLine(cfg, w.(word := Nil)) == OpenLine(cfg, w).(word := Nil)
    ensures OpenLine(cfg, EndLine(cfg, w.(word := Nil))) == OpenLine(cfg, EndLine(cfg, w)).(word := Nil)
    ensures Put(cfg, w.(word := Nil), cell, Space) == Put(cfg, w, cell, Space).(word := Nil)
  {
    hide PrefixText, Sync, Synced, TrimBlanks;
    assert EndLine(cfg, w.(word := Nil)) == EndLine(cfg, w).(word := Nil);
  }

  lemma {:induction false} CharsRun(cfg: Config, w: Writer, ops: Rev<Op>, s: string)
    ensures var w1 := Run(cfg, w, ops);
            Run(cfg, w, AddChars(ops, s)) == w1.(word := AppendCells(w1.word, s, w1.desired))
  {
    if s != "" {
      CharsRun(cfg, w, ops, s[..|s| - 1]);
    }
  }

  // ----- verbatim lines -----

  function VerbatimAttrs(w: Writer): Attrs {
    Attrs(w.desired.styles, None)
  }

  /** Code is written a line at a time, which comes to the same as a character at a time. */
  lemma {:induction false} VerbatimLine(cfg: Config, w: Writer, line: string)
    requires line != "" && '\n' !in line
    ensures var w' := Run(cfg, w, VerbatimOps(Nil, line));
            && w' == PutAll(cfg, OpenLine(cfg, w), AppendCells(Nil, line, VerbatimAttrs(w)), Verbatim)
            && w'.line.Open? && w'.desired == w.desired
  {
    var n := |line| - 1;
    if n == 0 {
      assert line[..0] == "";
      assert Run(cfg, w, VerbatimOps(Nil, line[..0])) == w;
      assert PutAll(cfg, OpenLine(cfg, w), AppendCells(Nil, line[..0], VerbatimAttrs(w)), Verbatim) == OpenLine(cfg, w);
    } else {
      VerbatimLine(cfg, w, line[..n]);
    }
  }

  class LineWriter {
    const cfg: Config
    var out: seq<Item>
    var segments: seq<string>
    var nextOverride: Option<string>
    var line: Line
    var word: seq<Span>
    var wordWidth: nat
    var pending: Option<Attrs>
    var desired: Attrs

    ghost predicate Valid()
      reads this
    {
      && wordWidth == WordWidth(cfg, Flat(word))
      && (word == [] <==> Flat(word) == Nil)
      && forall i | 0 <= i < |word| :: word[i].text != ""
    }

    ghost function State(): Writer
      reads this
    {
      Writer(FromSeq(out), segments, nextOverride, line, Flat(word), pending, desired)
    }

    constructor (cfg: Config)
      ensures this.cfg == cfg && Valid() && State() == EMPTY_WRITER
    {
      this.cfg := cfg;
      out, segments, nextOverride, line := [], [], None, AtStart;
      word, wordWidth, pending, desired := [], 0, None, PLAIN;
    }

    // ----- desired attributes and prefixes -----

    method PushStyle(style: Style)
      requires Valid()
      modifies this
      ensures Valid() && State() == Step(cfg, old(State()), Op.PushStyle(style))
    {
      desired := Attrs(desired.styles + [style], desired.link);
    }

    method PopStyle()
      requires Valid()
      modifies this
      ensures Valid() && State() == Step(cfg, old(State()), Op.PopStyle)
    {
      desired := Attrs(PopLast(desired.styles), desired.link);
    }

    method SetLink(link: Option<string>)
      requires Valid()
      modifies this
      ensures Valid() && State() == Step(cfg, old(State()), Op.SetLink(link))
    {
      desired := Attrs(desired.styles, link);
    }

    method TakeLink() returns (link: Option<string>)
      requires Valid()
      modifies this
      ensures link == old(desired).link
      ensures Valid() && State() == Step(cfg, old(State()), Op.SetLink(None))
    {
      link := desired.link;
      desired := Attrs(desired.styles, None);
    }

    method PushPrefix(prefix: string)
      requires Valid()
      modifies this
      ensures Valid() && State() == Step(cfg, old(State()), Op.PushPrefix(prefix))
    {
      segments := segments + [prefix];
    }

    method PopPrefix()
      requires Valid() && segments != []
      modifies this
      ensures Valid() && State() == Step(cfg, old(State()), Op.PopPrefix)
    {
      segments := segments[..|segments| - 1];
    }

    method SetItemMarker(marker: string)
      requires Valid()
      modifies this
      ensures Valid() && State() == Step(cfg, old(State()), Op.SetMarker(marker))
    {
      nextOverride := Some(Concat(segments) + marker);
    }

    // ----- output -----

    method Push(item: Item)
      modifies this`out
      ensures out == old(out) + [item]
      ensures State() == old(State()).(out := Snoc(old(State()).out, item))
    {
      FromSeqPush(out, item);
      out := out + [item];
    }

    method PushText(text: string, role: Role)
      modifies this`out
      ensures State() == old(State()).(out := Glyphs(old(State()).out, text, role))
    {
      var i := 0;
      assert text[..0] == "";
      while i < |text|
        invariant 0 <= i <= |text|
        invariant State() == old(State()).(out := Glyphs(old(State()).out, text[..i], role))
      {
        assert text[..i + 1][..i] == text[..i];
        Push(Glyph(text[i], role));
        i := i + 1;
      }
      assert text[..|text|] == text;
    }

    method WriteStyleDiff(emitted: seq<Style>, wanted: seq<Style>)
      modifies this`out
      ensures State() == old(State()).(out := StyleDiff(old(State()).out, emitted, wanted))
    {
      if emitted == wanted {
        return;
      }
      var from := 0;
      if emitted <= wanted {
        from := |emitted|;
      } else if emitted != [] {
        Push(Reset);
      }
      ghost var base := State();
      var i := from;
      while i < |wanted|
        invariant from <= i <= |wanted|
        invariant State() == base.(out := StylesOn(base.out, wanted[..i], from))
      {
        assert wanted[..i + 1][..i] == wanted[..i];
        Push(StyleOn(wanted[i]));
        i := i + 1;
      }
      assert wanted[..|wanted|] == wanted;
    }

    method SyncLink(emitted: Option<string>, wanted: Option<string>)
      modifies this`out
      ensures State() == old(State()).(out := LinkDiff(old(State()).out, emitted, wanted))
    {
      if emitted == wanted {
        return;
      }
      if emitted.Some? {
        Push(LinkClose);
      }
      if wanted.Some? {
        Push(LinkOpen(wanted.value));
      }
    }

    /** Writes a run of text to the open line. */
    method WriteOpen(text: string, attrs: Attrs, role: Role)
      requires Valid() && text != "" && line.Open?
      modifies this`out, this`line
      ensures Valid() && State() == PutAll(cfg, old(State()), AppendCells(Nil, text, attrs), role)
      ensures line.Open?
    {
      PutRun(cfg, State(), text, attrs, role);
      var emitted := line.emitted;
      if cfg.color {
        WriteStyleDiff(emitted.styles, attrs.styles);
        emitted := Attrs(attrs.styles, emitted.link);
      }
      if cfg.hyperlinks {
        SyncLink(emitted.link, attrs.link);
        emitted := Attrs(emitted.styles, attrs.link);
      }
      PushText(text, role);
      line := Open(line.column + TextWidth(cfg, text), emitted);
    }

    // ----- lines -----

    method OpenLine()
      requires Valid()
      modifies this`out, this`line, this`nextOverride
      ensures Valid() && State() == LineLayout.OpenLine(cfg, old(State())) && line.Open?
    {
      if line.Open? {
        return;
      }
      hide TrimEnd, Concat, PrefixText, Glyphs, Flat, TextWidth, WordWidth, FromSeq;
      FromSeqNil(out);
      if line.AfterBlock? && out != [] {
        var blank := TrimEnd(line.prefix);
        GlyphsArePrefix(FromSeq(out), blank);
        PushText(blank, Prefix);
        Push(Newline);
      }
      var prefix := if nextOverride.Some? then nextOverride.value else Concat(segments);
      GlyphsArePrefix(FromSeq(out), prefix);
      nextOverride := None;
      PushText(prefix, Prefix);
      line := Open(TextWidth(cfg, prefix), PLAIN);
    }

    method TrimTrailing()
      modifies this`out
      ensures State() == old(State()).(out := TrimBlanks(old(State()).out))
    {
      var n := |out|;
      while n > 0 && out[n - 1].Glyph? && out[n - 1].c == ' '
        invariant 0 <= n <= |out|
        invariant TrimBlanks(FromSeq(out[..n])) == TrimBlanks(FromSeq(out[..|out|]))
      {
        assert out[..n][..n - 1] == out[..n - 1];
        n := n - 1;
      }
      assert out[..|out|] == out;
      assert n > 0 ==> out[..n][n - 1] == out[n - 1];
      out := out[..n];
    }

    method EndLine()
      requires Valid()
      modifies this`out, this`line
      ensures Valid() && State() == Step(cfg, old(State()), FinishLine) && !line.Open?
    {
      if !line.Open? {
        return;
      }
      var emitted := line.emitted;
      TrimTrailing();
      if emitted.link.Some? {
        Push(LinkClose);
      }
      if cfg.color && emitted.styles != [] {
        Push(Reset);
      }
      Push(Newline);
      line := AtStart;
    }

    method EndBlock()
      requires Valid()
      modifies this`out, this`line
      ensures Valid() && State() == Step(cfg, old(State()), FinishBlock)
    {
      EndLine();
      line := AfterBlock(Concat(segments));
    }

    // ----- words -----

    method AddSegment(text: string)
      requires Valid()
      modifies this
      ensures Valid() && State() == old(State()).(word := AppendCells(old(State()).word, text, desired))
      ensures desired == old(desired)
    {
      if text != "" {
        FlatPush(word, Span(text, desired));
        AppendCellsWidth(cfg, Flat(word), text, desired);
        word, wordWidth := word + [Span(text, desired)], wordWidth + TextWidth(cfg, text);
      }
    }

    /** Writes the buffered spans, each with one sync. */
    method EmitWord()
      requires Valid() && line.Open?
      modifies this`out, this`line, this`word, this`wordWidth
      ensures Valid()
      ensures State() == PutAll(cfg, old(State()).(word := Nil), old(State()).word, Word)
    {
      var spans := word;
      word, wordWidth := [], 0;
      ghost var start := State();
      var i := 0;
      while i < |spans|
        invariant 0 <= i <= |spans| && line.Open? && Valid() && word == []
        invariant State() == PutAll(cfg, start, Flat(spans[..i]), Word)
      {
        assert spans[..i + 1] == spans[..i] + [spans[i]];
        FlatPush(spans[..i], spans[i]);
        PutAllAppend(cfg, start, Flat(spans[..i]), spans[i].text, spans[i].desired, Word);
        WriteOpen(spans[i].text, spans[i].desired, Word);
        i := i + 1;
      }
      assert spans[..|spans|] == spans;
    }

    method FlushWord()
      requires Valid()
      modifies this`out, this`line, this`word, this`wordWidth, this`pending, this`nextOverride
      ensures Valid() && State() == Step(cfg, old(State()), Op.FlushWord)
    {
      hide PutAll, LineLayout.OpenLine, LineLayout.EndLine, Put, WordWidth;
      if word == [] {
        return;
      }
      var space := pending;
      pending := None;
      BufferDoesNotMatter(cfg, State(), Cell(' ', if space.Some? then space.value else PLAIN));
      if line.Open? {
        if space.Some? {
          if line.column + 1 + wordWidth > cfg.width {
            EndLine();
            OpenLine();
          } else {
            OneCell(State(), space.value);
            WriteOpen(" ", space.value, Space);
          }
        }
      } else {
        OpenLine();
      }
      EmitWord();
    }

    lemma OneCell(w: Writer, a: Attrs)
      ensures PutAll(cfg, w, AppendCells(Nil, " ", a), Space) == Put(cfg, w, Cell(' ', a), Space)
    {
      assert " "[..0] == "";
      assert AppendCells(Nil, " "[..0], a) == Nil;
      assert PutAll(cfg, w, Nil, Space) == w;
    }

    method AddSpace()
      requires Valid()
      modifies this
      ensures Valid() && State() == Step(cfg, old(State()), Op.AddSpace)
    {
      FlushWord();
      pending := Some(desired);
    }

    method HardBreak()
      requires Valid()
      modifies this
      ensures Valid() && State() == Step(cfg, Step(cfg, old(State()), Op.FlushWord), FinishLine)
    {
      FlushWord();
      EndLine();
    }

    method Finish() returns (r: seq<Item>)
      requires Valid()
      modifies this
      ensures FromSeq(r) == LineLayout.Finish(cfg, old(State()))
    {
      HardBreak();
      r := out;
    }

    /** One line of code. A line that another one follows is left open even when it is
        empty, so that ending it makes a blank line. */
    method WriteCodeLine(text: string, last: bool)
      requires Valid() && '\n' !in text
      modifies this`out, this`line, this`nextOverride
      ensures Valid() && State() == OpenUnless(cfg, Run(cfg, old(State()), VerbatimOps(Nil, text)), last)
    {
      if text == "" {
        assert Run(cfg, State(), VerbatimOps(Nil, text)) == State();
        if !last {
          OpenLine();
        }
      } else {
        VerbatimLine(cfg, State(), text);
        hide Run, PutAll, VerbatimOps;
        OpenLine();
        WriteOpen(text, Attrs(desired.styles, None), Verbatim);
      }
    }

    /** Writes code line by line. */
    method WriteVerbatim(s: string)
      requires Valid()
      modifies this`out, this`line, this`nextOverride
      ensures Valid() && State() == Run(cfg, old(State()), VerbatimOps(Nil, s))
    {
      hide Join, PutAll, Lines, Run, VerbatimOps, LineLayout.OpenLine, LineLayout.EndLine, Flat, FromSeq,
           LineWriter.Valid;
      var lines := Lines(s);
      JoinLines(s);
      var last := |lines| - 1;
      ghost var before := State();
      JoinNext(lines, 0);
      WriteCodeLine(lines[0], last == 0);
      var i := 1;
      while i < |lines|
        invariant 1 <= i <= |lines| && Valid()
        invariant State() == OpenUnless(cfg, Run(cfg, before, VerbatimOps(Nil, Join(lines[..i]))), i > last)
      {
        VerbatimNextLine(cfg, before, lines, i);
        EndLine();
        WriteCodeLine(lines[i], i == last);
        i := i + 1;
      }
      assert lines[..|lines|] == lines;
    }
  }

  function OpenUnless(cfg: Config, w: Writer, last: bool): Writer {
    if last then w else OpenLine(cfg, w)
  }

  lemma VerbatimNewline(cfg: Config, w: Writer, s: string)
    ensures Run(cfg, w, VerbatimOps(Nil, s + "\n")) == EndLine(cfg, OpenLine(cfg, Run(cfg, w, VerbatimOps(Nil, s))))
  {
    assert (s + "\n")[..|s|] == s;
  }

  lemma VerbatimNextLine(cfg: Config, w: Writer, lines: seq<string>, i: nat)
    requires 0 < i < |lines|
    ensures Run(cfg, w, VerbatimOps(Nil, Join(lines[..i + 1])))
            == Run(cfg, EndLine(cfg, OpenLine(cfg, Run(cfg, w, VerbatimOps(Nil, Join(lines[..i]))))),
              VerbatimOps(Nil, lines[i]))
  {
    var done := Join(lines[..i]);
    VerbatimNewline(cfg, w, done);
    VerbatimConcat(cfg, w, done + "\n", lines[i]);
    JoinNext(lines, i);
  }

  lemma VerbatimConcat(cfg: Config, w: Writer, a: string, b: string)
    ensures Run(cfg, w, VerbatimOps(Nil, a + b)) == Run(cfg, Run(cfg, w, VerbatimOps(Nil, a)), VerbatimOps(Nil, b))
  {
    TextOpsConcat(Nil, a, b);
    RunText(cfg, w, VerbatimOps(Nil, a), b);
  }
}
