/** Wrapping and trimming lose no ink: what is written is what the events say. */
module KeptInk {
  import opened Wrappers
  import opened CharClasses
  import opened LineLayout
  import opened ShownText
  import opened WantedText
  import opened Terminal
  import opened HelpEvents
  import opened HelpRenderer

  /** The characters of content that are no blanks, in order, each as it is shown. */
  function Inked(text: Page): Rev<Cell> {
    match text
    case Nil => Nil
    case Snoc(init, p) => if p.Char? && p.cell.c != ' ' then Snoc(Inked(init), p.cell) else Inked(init)
  }

  lemma {:induction false} LeadsNoInk(text: Page, s: string)
    ensures Inked(AddLeads(text, s)) == Inked(text)
  {
    if s != "" {
      LeadsNoInk(text, s[..|s| - 1]);
    }
  }

  lemma {:induction false} ShowsInk(shown: Page, wanted: Page, after: After)
    requires Shows(shown, wanted, after)
    ensures Inked(shown) == Inked(wanted)
    decreases Gaps(wanted), wanted
  {
    if wanted.Snoc? {
      var init, p := wanted.init, wanted.last;
      var before := if p.End? then LineEnds else More;
      if !Drops(after, p) && shown.Snoc? && shown.last == AsShown(p) && Shows(shown.init, init, before) {
        ShowsInk(shown.init, init, before);
      } else if Drops(after, p) && Shows(shown, init, Missing(LooksOf(p))) {
        ShowsInk(shown, init, Missing(LooksOf(p)));
      } else {
        ShowsInk(shown, AddLeads(Snoc(init, End), p.next), after);
        LeadsNoInk(Snoc(init, End), p.next);
      }
    }
  }

  // ----- ink of a draft -----

  function AddInk(ink: Rev<Cell>, cell: Cell): Rev<Cell> {
    if cell.c == ' ' then ink else Snoc(ink, cell)
  }

  function WordInk(ink: Rev<Cell>, word: Rev<Cell>): Rev<Cell> {
    match word
    case Nil => ink
    case Snoc(init, cell) => AddInk(WordInk(ink, init), cell)
  }

  function DraftInk(d: Draft): Rev<Cell> {
    WordInk(Inked(d.text), d.word)
  }

  lemma {:induction false} WordInked(text: Page, word: Rev<Cell>)
    ensures Inked(AddWord(text, word)) == WordInk(Inked(text), word)
  {
    if word.Snoc? {
      WordInked(text, word.init);
    }
  }

  lemma LineInk(d: Draft, prefix: string)
    ensures DraftInk(LineOpened(d, prefix)) == DraftInk(d)
    ensures DraftInk(LineClosed(d)) == DraftInk(BlockClosed(d, prefix)) == DraftInk(d)
    ensures Inked(LineOpened(d, prefix).text) == Inked(d.text)
  {
    if !d.place.Within? {
      var text := if d.place.Parted? && d.text != Nil then Snoc(AddLeads(d.text, TrimEnd(d.place.prefix)), End)
                  else d.text;
      if d.place.Parted? {
        LeadsNoInk(d.text, TrimEnd(d.place.prefix));
      }
      LeadsNoInk(text, NextStart(d, prefix));
    }
    hide AddLeads, TrimEnd;
  }

  lemma WordClosedInk(d: Draft, prefix: string)
    ensures DraftInk(WordClosed(d, prefix)) == DraftInk(d) && WordClosed(d, prefix).word == Nil
  {
    if d.word != Nil {
      var d1 := if !d.place.Within? then LineOpened(d, prefix)
                else if d.space.Some? then d.(text := Snoc(d.text, Gap(d.space.value, NextStart(d, prefix))))
                else d;
      LineInk(d, prefix);
      WordInked(d1.text, d.word);
    }
    hide LineOpened;
  }

  // ----- ink of the events -----

  /** The characters of `s` that are kept. */
  function StringInk(ink: Rev<Cell>, s: string, attrs: Attrs, keep: char -> bool): Rev<Cell> {
    if s == "" then ink
    else
      var c, before := s[|s| - 1], StringInk(ink, s[..|s| - 1], attrs, keep);
      if keep(c) then Snoc(before, Cell(c, attrs)) else before
  }

  /** The ink of an event: of text and code, and of an address without hyperlinks. */
  function EventInk(cfg: Config, pal: Palette, tags: Tags, ink: Rev<Cell>, ev: Event): Rev<Cell> {
    var here := Mask(cfg, AttrsOf(cfg, pal, tags));
    match ev
    case Text(s) =>
      if InCode(tags) then
        StringInk(ink, s, Mask(cfg, Attrs(StylesOf(cfg, pal, tags), None)), c => c != ' ' && c != '\n')
      else StringInk(ink, s, here, c => !IsWhitespace(c))
    case CodeSpan(s) =>
      var styles := if InTitle(tags) then StylesOf(cfg, pal, tags) else StylesOf(cfg, pal, tags) + [pal.code];
      StringInk(ink, s, Mask(cfg, Attrs(styles, LinkOf(tags))), c => c != ' ')
    case EndLink =>
      if LinkOf(tags).Some? && !cfg.hyperlinks then
        StringInk(ink, "<" + LinkOf(tags).value + ">", here, c => c != ' ')
      else ink
    case _ => ink
  }

  function StreamInk(cfg: Config, pal: Palette, evs: Rev<Event>): Rev<Cell> {
    match evs
    case Nil => Nil
    case Snoc(init, ev) => EventInk(cfg, pal, TagsAfter(init), StreamInk(cfg, pal, init), ev)
  }

  lemma {:induction false} TextInk(d: Draft, s: string, attrs: Attrs, prefix: string)
    ensures DraftInk(AddText(d, s, attrs, prefix)) == StringInk(DraftInk(d), s, attrs, c => !IsWhitespace(c))
  {
    if s != "" {
      var d1 := AddText(d, s[..|s| - 1], attrs, prefix);
      TextInk(d, s[..|s| - 1], attrs, prefix);
      WordClosedInk(d1, prefix);
      hide WordClosed;
    }
  }

  lemma {:induction false} SpanInk(d: Draft, s: string, attrs: Attrs)
    ensures DraftInk(AddSpan(d, s, attrs)) == StringInk(DraftInk(d), s, attrs, c => c != ' ')
  {
    if s != "" {
      SpanInk(d, s[..|s| - 1], attrs);
    }
  }

  lemma {:induction false} CodeInk(d: Draft, s: string, attrs: Attrs, prefix: string)
    requires d.word == Nil
    ensures AddCode(d, s, attrs, prefix).word == Nil
    ensures DraftInk(AddCode(d, s, attrs, prefix))
            == StringInk(DraftInk(d), s, attrs, c => c != ' ' && c != '\n')
  {
    if s != "" {
      var d1 := AddCode(d, s[..|s| - 1], attrs, prefix);
      CodeInk(d, s[..|s| - 1], attrs, prefix);
      LineInk(d1, prefix);
      LineInk(LineOpened(d1, prefix), prefix);
      assert LineOpened(d1, prefix).word == d1.word;
      hide LineOpened;
    }
  }

  /** What an event adds to the text wanted has the event's ink. */
  lemma EventInked(cfg: Config, pal: Palette, tags: Tags, d: Draft, ev: Event)
    requires InCode(tags) ==> d.word == Nil
    ensures DraftInk(WantNext(cfg, pal, tags, d, ev)) == EventInk(cfg, pal, tags, DraftInk(d), ev)
  {
    hide DraftInk, WordClosed, LineClosed, BlockClosed, AddText, AddSpan, AddCode, StringInk, InCode, InTitle, LinkOf,
         StylesOf, PrefixOf, ItemMarker;
    var prefix, outer := PrefixOf(cfg, tags), PrefixOf(cfg, NextTags(tags, ev));
    var ended := WordClosed(d, prefix);
    WordClosedInk(d, prefix);
    LineInk(d, prefix);
    LineInk(d, outer);
    LineInk(ended, outer);
    if ev.StartItem? {
      MarkerInk(LineClosed(ended), prefix);
    } else if ev.Text? || ev.CodeSpan? || ev.SoftBreak? || ev.EndLink? {
      InlineInked(cfg, pal, tags, d, ev);
    }
  }

  lemma MarkerInk(d: Draft, prefix: string)
    ensures forall marker :: DraftInk(MarkerSet(d, prefix + marker)) == DraftInk(d)
  {
  }

  lemma SpaceInk(d: Draft, attrs: Attrs, prefix: string)
    ensures DraftInk(SpaceAdded(d, attrs, prefix)) == DraftInk(d)
  {
    WordClosedInk(d, prefix);
    hide WordClosed;
  }

  lemma InlineInked(cfg: Config, pal: Palette, tags: Tags, d: Draft, ev: Event)
    requires InCode(tags) ==> d.word == Nil
    requires ev.Text? || ev.CodeSpan? || ev.SoftBreak? || ev.EndLink?
    ensures DraftInk(WantInline(cfg, pal, tags, d, ev)) == EventInk(cfg, pal, tags, DraftInk(d), ev)
  {
    hide DraftInk, SpaceAdded, AddText, AddSpan, AddCode, StringInk, InCode, InTitle, LinkOf, StylesOf, PrefixOf;
    var here, prefix := Mask(cfg, AttrsOf(cfg, pal, tags)), PrefixOf(cfg, tags);
    SpaceInk(d, here, prefix);
    if ev.Text? && InCode(tags) {
      CodeInk(d, ev.text, Mask(cfg, Attrs(StylesOf(cfg, pal, tags), None)), prefix);
    } else if ev.Text? {
      TextInk(d, ev.text, here, prefix);
    } else if ev.CodeSpan? {
      var styles := if InTitle(tags) then StylesOf(cfg, pal, tags) else StylesOf(cfg, pal, tags) + [pal.code];
      SpanInk(d, ev.code, Mask(cfg, Attrs(styles, LinkOf(tags))));
    } else if ev.EndLink? && LinkOf(tags).Some? {
      SpanInk(SpaceAdded(d, here, prefix), "<" + LinkOf(tags).value + ">", here);
    }
  }

  lemma {:induction false} StreamInked(cfg: Config, pal: Palette, evs: Rev<Event>)
    requires WellNested(evs)
    ensures DraftInk(WantAll(cfg, pal, evs)) == StreamInk(cfg, pal, evs)
  {
    match evs
    case Nil =>
    case Snoc(init, ev) =>
      var tags, d := TagsAfter(init), WantAll(cfg, pal, init);
      StreamInked(cfg, pal, init);
      StreamTracked(cfg, pal, init);
      NoWordInCode(cfg, pal, HandleAll(cfg, pal, START, init), tags, d);
      EventInked(cfg, pal, tags, d, ev);
      hide Tracks, WantNext, EventInk, NestsWell, DraftInk;
  }

  lemma NoWordInCode(cfg: Config, pal: Palette, r: Renderer, tags: Tags, d: Draft)
    requires Tracks(cfg, pal, r, tags, d)
    ensures InCode(tags) ==> d.word == Nil
  {
    hide Inv, Shows, StylesOf, SegmentsOf, Proper;
  }

  /** Every character of the events that is no blank is in the output, once, in order, and
      shown with the styles and the link of the tags around it; and there is no other one. */
  lemma RenderedKeepsInk(cfg: Config, pal: Palette, evs: Rev<Event>)
    requires WellNested(evs) && !InCode(TagsAfter(evs))
    ensures Inked(View(Rendered(cfg, pal, evs))) == StreamInk(cfg, pal, evs)
  {
    hide WellNested, TagsAfter, WantAll, Rendered, View, StreamInk, Shows, Inked, PrefixOf;
    var d, prefix := WantAll(cfg, pal, evs), PrefixOf(cfg, TagsAfter(evs));
    RenderedSound(cfg, pal, evs);
    ShowsInk(View(Rendered(cfg, pal, evs)), Wanted(cfg, pal, evs), More);
    StreamInked(cfg, pal, evs);
    WordClosedInk(d, prefix);
    LineInk(WordClosed(d, prefix), prefix);
    hide WordClosed;
  }

  // ----- lines of code -----

  function AddString(text: Page, s: string, attrs: Attrs): Page {
    if s == "" then text else Snoc(AddString(text, s[..|s| - 1], attrs), Char(Cell(s[|s| - 1], attrs)))
  }

  lemma {:induction false} CodeChars(d: Draft, s: string, attrs: Attrs, prefix: string)
    requires '\n' !in s && s != ""
    ensures AddCode(d, s, attrs, prefix)
            == LineOpened(d, prefix).(text := AddString(LineOpened(d, prefix).text, s, attrs))
  {
    var init := s[..|s| - 1];
    assert LineOpened(d, prefix).place.Within?;
    if init != "" {
      CodeChars(d, init, attrs, prefix);
    } else {
      assert AddCode(d, "", attrs, prefix) == d;
    }
    hide LineOpened;
  }

  /** A line of code is wanted as its prefix, its characters, and a line end; an empty one
      too. Nothing of it is left out, and nothing joins it. */
  lemma {:induction false} CodeLineWanted(d: Draft, s: string, attrs: Attrs, prefix: string)
    requires '\n' !in s && !d.place.Within?
    ensures AddCode(d, s + "\n", attrs, prefix).text
            == Snoc(AddString(LineOpened(d, prefix).text, s, attrs), End)
  {
    assert (s + "\n")[..|s|] == s;
    if s == "" {
      assert AddCode(d, s, attrs, prefix) == d;
    } else {
      CodeChars(d, s, attrs, prefix);
    }
    hide AddLeads, TrimEnd;
  }
}
