/** The markers of list items: which number each item carries, and where it is shown. */
module NumberedItems {
  import opened Wrappers
  import opened CharClasses
  import opened DecimalText
  import opened LineLayout
  import opened ShownText
  import opened WantedText
  import opened Terminal
  import opened HelpEvents
  import opened HelpRenderer
  import opened KeptInk

  // ----- lists, told by the events -----

  /** A list that is open: its first number, if it is a numbered one, and how many items it
      has had. */
  datatype Count = Count(start: Option<nat>, items: nat)

  /** The open lists, the innermost last. */
  function OpenLists(evs: Rev<Event>): Rev<Count> {
    match evs
    case Nil => Nil
    case Snoc(init, ev) =>
      var lists := OpenLists(init);
      match ev
      case StartList(start) => Snoc(lists, Count(start, 0))
      case EndList => if lists.Snoc? then lists.init else Nil
      case StartItem =>
        if lists.Snoc? then Snoc(lists.init, lists.last.(items := lists.last.items + 1)) else Nil
      case _ => lists
  }

  /** The next item of the list: a hyphen, or its number in decimal, without needless zeros. */
  predicate Marks(m: string, list: Count) {
    if list.start.None? then m == "- "
    else
      && |m| >= 3 && m[|m| - 2..] == ". "
      && IsDigits(m[..|m| - 2]) && DigitsValue(m[..|m| - 2]) == list.start.value + list.items
      && (m[0] == '0' ==> |m| == 3)
  }

  lemma {:induction false} NoLeadingZero(n: nat)
    ensures NatText(n) != "" && (NatText(n)[0] == '0' ==> n == 0)
  {
    if n >= 10 {
      NoLeadingZero(n / 10);
    }
  }

  lemma MarkerMarks(next: Option<nat>, list: Count)
    requires next == if list.start.None? then None else Some(list.start.value + list.items)
    ensures Marks(ItemMarker(next), list)
  {
    if next.Some? {
      var digits := NatText(next.value);
      NatTextDigits(next.value);
      NoLeadingZero(next.value);
      hide NatText, IsDigits, DigitsValue;
      assert (digits + ". ")[..|digits|] == digits && (digits + ". ")[|digits|..] == ". ";
      assert next.value == 0 ==> digits == "0" by { ZeroText(); }
    }
  }

  lemma ZeroText()
    ensures NatText(0) == "0"
  {
  }

  function Next(list: Count): Option<nat> {
    if list.start.None? then None else Some(list.start.value + list.items)
  }

  /** The tags know the lists by their next numbers. */
  predicate Counted(tags: Tags, lists: Rev<Count>) {
    match tags
    case Nil => lists == Nil
    case Snoc(init, t) =>
      if t.List? then lists.Snoc? && t.next == Next(lists.last) && Counted(init, lists.init) else Counted(init, lists)
  }

  lemma {:induction false} ListsCounted(evs: Rev<Event>)
    requires WellNested(evs)
    ensures Counted(TagsAfter(evs), OpenLists(evs))
  {
    if evs.Snoc? {
      ListsCounted(evs.init);
      hide ItemMarker, Proper;
    }
  }

  /** An item that may start stands right in a list, and the tags have its marker. */
  lemma NextItemMarked(evs: Rev<Event>)
    requires WellNested(Snoc(evs, StartItem))
    ensures TagsAfter(evs).Snoc? && TagsAfter(evs).last.List? && OpenLists(evs).Snoc?
    ensures Marks(ItemMarker(TagsAfter(evs).last.next), OpenLists(evs).last)
  {
    ListsCounted(evs);
    MarkerMarks(TagsAfter(evs).last.next, OpenLists(evs).last);
    hide ItemMarker, Marks;
  }

  // ----- the hanging indent -----

  lemma {:induction false} BlanksAreBlank(n: nat)
    ensures |Blanks(n)| == n && forall i | 0 <= i < n :: Blanks(n)[i] == ' '
  {
    if n > 0 {
      BlanksAreBlank(n - 1);
    }
  }

  lemma ConcatPush(segments: seq<string>, s: string)
    ensures Concat(segments + [s]) == Concat(segments) + s
  {
    assert (segments + [s])[..|segments|] == segments;
  }

  /** Inside an item, further lines are indented by as many columns as its marker takes. */
  lemma ItemIndented(cfg: Config, evs: Rev<Event>) returns (m: string, indent: string)
    requires WellNested(Snoc(evs, StartItem))
    ensures OpenLists(evs).Snoc? && Marks(m, OpenLists(evs).last)
    ensures PrefixOf(cfg, TagsAfter(Snoc(evs, StartItem))) == PrefixOf(cfg, TagsAfter(evs)) + indent
    ensures |indent| == TextWidth(cfg, m) && forall i | 0 <= i < |indent| :: indent[i] == ' '
  {
    var tags := TagsAfter(evs);
    NextItemMarked(evs);
    m := ItemMarker(tags.last.next);
    indent := Blanks(TextWidth(cfg, m));
    BlanksAreBlank(TextWidth(cfg, m));
    ItemStartTags(cfg, NO_PALETTE, tags);
    ConcatPush(SegmentsOf(cfg, tags), indent);
    hide Blanks, TextWidth, SegmentsOf, Concat, ItemMarker, AttrsOf;
  }

  const NO_PALETTE := Palette("", "", "", "", "", "", "")

  // ----- where the marker is shown -----

  /** `a` is where `b` starts. */
  predicate Extends<T(==)>(b: Rev<T>, a: Rev<T>) {
    b == a || (b.Snoc? && Extends(b.init, a))
  }

  lemma {:induction false} ExtendsOn<T>(c: Rev<T>, b: Rev<T>, a: Rev<T>)
    requires Extends(c, b) && Extends(b, a)
    ensures Extends(c, a)
  {
    if c != b {
      ExtendsOn(c.init, b, a);
    }
  }

  /** At the start of a line, or of the text. */
  predicate AtLineStart(text: Page) {
    text.Snoc? ==> text.last.End?
  }

  function FirstCell(word: Rev<Cell>): Option<Cell> {
    match word
    case Nil => None
    case Snoc(init, cell) => if init == Nil then Some(cell) else FirstCell(init)
  }

  /** The text has a line that starts with `s` and then has `cell`. */
  ghost predicate Placed(text: Page, s: string, cell: Cell) {
    exists before :: AtLineStart(before) && Extends(text, Snoc(AddLeads(before, s), Char(cell)))
  }

  /** The word that begins with `cell` is going to start a line behind `s`, or has. */
  ghost predicate Starts(d: Draft, s: string, cell: Cell) {
    || Placed(d.text, s, cell)
    || (!d.place.Within? && d.marker == Some(s) && FirstCell(d.word) == Some(cell) && AtLineStart(d.text))
  }

  lemma PlacedOn(a: Page, b: Page, s: string, cell: Cell)
    requires Placed(a, s, cell) && Extends(b, a)
    ensures Placed(b, s, cell)
  {
    var before :| AtLineStart(before) && Extends(a, Snoc(AddLeads(before, s), Char(cell)));
    ExtendsOn(b, a, Snoc(AddLeads(before, s), Char(cell)));
  }

  lemma {:induction false} LeadsExtend(text: Page, s: string)
    ensures Extends(AddLeads(text, s), text)
  {
    if s != "" {
      LeadsExtend(text, s[..|s| - 1]);
    }
  }

  lemma {:induction false} WordExtends(text: Page, word: Rev<Cell>)
    ensures Extends(AddWord(text, word), text)
    ensures word != Nil
            ==> FirstCell(word).Some? && Extends(AddWord(text, word), Snoc(text, Char(FirstCell(word).value)))
  {
    if word.Snoc? {
      WordExtends(text, word.init);
    }
  }

  lemma OpenedExtends(d: Draft, prefix: string)
    ensures Extends(LineOpened(d, prefix).text, d.text)
  {
    if !d.place.Within? {
      var text := if d.place.Parted? && d.text != Nil then Snoc(AddLeads(d.text, TrimEnd(d.place.prefix)), End)
                  else d.text;
      if d.place.Parted? {
        LeadsExtend(d.text, TrimEnd(d.place.prefix));
      }
      LeadsExtend(text, NextStart(d, prefix));
      assert Extends(text, d.text);
      ExtendsOn(AddLeads(text, NextStart(d, prefix)), text, d.text);
    }
    hide AddLeads;
  }

  lemma WordClosedExtends(d: Draft, prefix: string)
    ensures Extends(WordClosed(d, prefix).text, d.text)
  {
    if d.word != Nil {
      var d1 := if !d.place.Within? then LineOpened(d, prefix)
                else if d.space.Some? then d.(text := Snoc(d.text, Gap(d.space.value, NextStart(d, prefix))))
                else d;
      OpenedExtends(d, prefix);
      WordExtends(d1.text, d.word);
      assert Extends(d1.text, d.text);
      ExtendsOn(WordClosed(d, prefix).text, d1.text, d.text);
    }
    hide LineOpened, AddWord;
  }

  lemma WordPlaces(d: Draft, prefix: string, s: string, cell: Cell)
    requires Starts(d, s, cell)
    ensures Placed(WordClosed(d, prefix).text, s, cell) && Starts(WordClosed(d, prefix), s, cell)
  {
    if Placed(d.text, s, cell) {
      WordClosedExtends(d, prefix);
      PlacedOn(d.text, WordClosed(d, prefix).text, s, cell);
    } else {
      var text := if d.place.Parted? && d.text != Nil then Snoc(AddLeads(d.text, TrimEnd(d.place.prefix)), End)
                  else d.text;
      assert AtLineStart(text);
      assert LineOpened(d, prefix).text == AddLeads(text, s);
      WordExtends(AddLeads(text, s), d.word);
      assert Extends(WordClosed(d, prefix).text, Snoc(AddLeads(text, s), Char(cell)));
    }
    hide Placed, WordClosed;
  }

  lemma LinesPlace(d: Draft, prefix: string, s: string, cell: Cell)
    requires Starts(d, s, cell)
    ensures Starts(LineClosed(d), s, cell) && Starts(BlockClosed(d, prefix), s, cell)
    ensures Placed(d.text, s, cell) ==> Placed(LineClosed(d).text, s, cell)
  {
    if Placed(d.text, s, cell) {
      assert Extends(LineClosed(d).text, d.text);
      PlacedOn(d.text, LineClosed(d).text, s, cell);
    }
    hide Placed;
  }

  lemma SpacePlaces(d: Draft, attrs: Attrs, prefix: string, s: string, cell: Cell)
    requires Starts(d, s, cell)
    ensures Starts(SpaceAdded(d, attrs, prefix), s, cell)
  {
    WordPlaces(d, prefix, s, cell);
    hide Placed, WordClosed;
  }

  lemma {:induction false} TextPlaces(d: Draft, text: string, attrs: Attrs, prefix: string, s: string, cell: Cell)
    requires Starts(d, s, cell)
    ensures Starts(AddText(d, text, attrs, prefix), s, cell)
  {
    if text != "" {
      var d1 := AddText(d, text[..|text| - 1], attrs, prefix);
      TextPlaces(d, text[..|text| - 1], attrs, prefix, s, cell);
      SpacePlaces(d1, attrs, prefix, s, cell);
      hide Placed, SpaceAdded;
    }
  }

  lemma {:induction false} SpanPlaces(d: Draft, text: string, attrs: Attrs, s: string, cell: Cell)
    requires Starts(d, s, cell)
    ensures Starts(AddSpan(d, text, attrs), s, cell)
  {
    if text != "" {
      SpanPlaces(d, text[..|text| - 1], attrs, s, cell);
      hide Placed;
    }
  }

  lemma {:induction false} CodePlaces(d: Draft, text: string, attrs: Attrs, prefix: string, s: string, cell: Cell)
    requires Placed(d.text, s, cell)
    ensures Placed(AddCode(d, text, attrs, prefix).text, s, cell)
  {
    if text != "" {
      var d1 := AddCode(d, text[..|text| - 1], attrs, prefix);
      CodePlaces(d, text[..|text| - 1], attrs, prefix, s, cell);
      OpenedExtends(d1, prefix);
      PlacedOn(d1.text, LineOpened(d1, prefix).text, s, cell);
      var d2 := AddCode(d, text, attrs, prefix);
      assert Extends(d2.text, LineOpened(d1, prefix).text);
      PlacedOn(LineOpened(d1, prefix).text, d2.text, s, cell);
      hide Placed, LineOpened;
    }
  }

  /** Whatever comes next, the line starts where it was going to. */
  lemma EventPlaces(cfg: Config, pal: Palette, tags: Tags, d: Draft, ev: Event, s: string, cell: Cell)
    requires Starts(d, s, cell) && (InCode(tags) ==> d.word == Nil)
    ensures Starts(WantNext(cfg, pal, tags, d, ev), s, cell)
  {
    hide Starts, WordClosed, LineClosed, BlockClosed, AddText, AddSpan, AddCode, InCode, InTitle, LinkOf, StylesOf,
         PrefixOf, ItemMarker, SpaceAdded;
    var prefix, outer := PrefixOf(cfg, tags), PrefixOf(cfg, NextTags(tags, ev));
    var ended := WordClosed(d, prefix);
    WordPlaces(d, prefix, s, cell);
    LinesPlace(d, prefix, s, cell);
    LinesPlace(d, outer, s, cell);
    LinesPlace(ended, outer, s, cell);
    if ev.StartItem? {
      LinesPlace(ended, prefix, s, cell);
      var marker := if tags.Snoc? && tags.last.List? then ItemMarker(tags.last.next) else "";
      MarkerPlaces(LineClosed(ended), prefix + marker, s, cell);
    } else if ev.Text? || ev.CodeSpan? || ev.SoftBreak? || ev.EndLink? {
      InlinePlaces(cfg, pal, tags, d, ev, s, cell);
    }
  }

  lemma MarkerPlaces(d: Draft, marker: string, s: string, cell: Cell)
    requires Placed(d.text, s, cell)
    ensures Starts(MarkerSet(d, marker), s, cell)
  {
  }

  lemma CodeStarts(d: Draft, text: string, attrs: Attrs, prefix: string, s: string, cell: Cell)
    requires Starts(d, s, cell) && d.word == Nil
    ensures Starts(AddCode(d, text, attrs, prefix), s, cell)
  {
    CodePlaces(d, text, attrs, prefix, s, cell);
    hide Placed;
  }

  lemma InlinePlaces(cfg: Config, pal: Palette, tags: Tags, d: Draft, ev: Event, s: string, cell: Cell)
    requires Starts(d, s, cell) && (InCode(tags) ==> d.word == Nil)
    requires ev.Text? || ev.CodeSpan? || ev.SoftBreak? || ev.EndLink?
    ensures Starts(WantInline(cfg, pal, tags, d, ev), s, cell)
  {
    hide Starts, SpaceAdded, AddText, AddSpan, AddCode, InCode, InTitle, LinkOf, StylesOf, PrefixOf;
    var here, prefix := Mask(cfg, AttrsOf(cfg, pal, tags)), PrefixOf(cfg, tags);
    SpacePlaces(d, here, prefix, s, cell);
    if ev.Text? && InCode(tags) {
      CodeStarts(d, ev.text, Mask(cfg, Attrs(StylesOf(cfg, pal, tags), None)), prefix, s, cell);
    } else if ev.Text? {
      TextPlaces(d, ev.text, here, prefix, s, cell);
    } else if ev.CodeSpan? {
      var styles := if InTitle(tags) then StylesOf(cfg, pal, tags) else StylesOf(cfg, pal, tags) + [pal.code];
      SpanPlaces(d, ev.code, Mask(cfg, Attrs(styles, LinkOf(tags))), s, cell);
    } else if ev.EndLink? && LinkOf(tags).Some? {
      SpanPlaces(SpaceAdded(d, here, prefix), "<" + LinkOf(tags).value + ">", here, s, cell);
    }
  }

  lemma {:induction false} StreamPlaces(cfg: Config, pal: Palette, all: Rev<Event>, evs: Rev<Event>, s: string,
                                        cell: Cell)
    requires WellNested(all) && Extends(all, evs) && Starts(WantAll(cfg, pal, evs), s, cell)
    ensures Starts(WantAll(cfg, pal, all), s, cell)
  {
    if all != evs {
      var tags, d := TagsAfter(all.init), WantAll(cfg, pal, all.init);
      StreamPlaces(cfg, pal, all.init, evs, s, cell);
      StreamTracked(cfg, pal, all.init);
      NoWordInCode(cfg, pal, HandleAll(cfg, pal, START, all.init), tags, d);
      hide Starts, WantNext, Tracks, NestsWell;
      EventPlaces(cfg, pal, tags, d, all.last, s, cell);
    }
  }

  // ----- the item's first line -----

  lemma {:induction false} FirstOfText(d: Draft, text: string, attrs: Attrs, prefix: string, s: string)
    requires text != "" && !IsWhitespace(text[0]) && d.word == Nil && !d.place.Within? && d.marker == Some(s)
    requires AtLineStart(d.text)
    ensures Starts(AddText(d, text, attrs, prefix), s, Cell(text[0], attrs))
  {
    var init, n := text[..|text| - 1], |text| - 1;
    if init == "" {
      assert AddText(d, init, attrs, prefix) == d;
    } else {
      FirstOfText(d, init, attrs, prefix, s);
      SpacePlaces(AddText(d, init, attrs, prefix), attrs, prefix, s, Cell(text[0], attrs));
      hide Placed, SpaceAdded;
    }
  }

  /** Once an item has started, no line is open and no word is pending. */
  lemma {:induction false} LineStartsClean(cfg: Config, pal: Palette, evs: Rev<Event>)
    requires WellNested(evs)
    ensures var d := WantAll(cfg, pal, evs); !d.place.Within? ==> AtLineStart(d.text)
  {
    if evs.Snoc? {
      LineStartsClean(cfg, pal, evs.init);
      hide NestsWell;
      EventEndsLines(cfg, pal, TagsAfter(evs.init), WantAll(cfg, pal, evs.init), evs.last);
    }
  }

  ghost predicate EndsLines(d: Draft) {
    !d.place.Within? ==> AtLineStart(d.text)
  }

  lemma WordEndsLines(d: Draft, prefix: string)
    requires EndsLines(d)
    ensures EndsLines(WordClosed(d, prefix)) && EndsLines(LineOpened(d, prefix))
    ensures WordClosed(d, prefix).word == Nil
  {
    hide AddLeads, TrimEnd, AddWord;
  }

  lemma ClosedEndsLines(d: Draft, prefix: string)
    requires EndsLines(d)
    ensures EndsLines(LineClosed(d)) && EndsLines(BlockClosed(d, prefix)) && !LineClosed(d).place.Within?
  {
  }

  lemma {:induction false} TextEndsLines(d: Draft, text: string, attrs: Attrs, prefix: string)
    requires EndsLines(d)
    ensures EndsLines(AddText(d, text, attrs, prefix)) && EndsLines(AddSpan(d, text, attrs))
    ensures EndsLines(AddCode(d, text, attrs, prefix))
  {
    if text != "" {
      var init := text[..|text| - 1];
      TextEndsLines(d, init, attrs, prefix);
      WordEndsLines(AddText(d, init, attrs, prefix), prefix);
      WordEndsLines(AddCode(d, init, attrs, prefix), prefix);
      ClosedEndsLines(LineOpened(AddCode(d, init, attrs, prefix), prefix), prefix);
      assert LineOpened(AddCode(d, init, attrs, prefix), prefix).place.Within?;
      hide WordClosed, LineOpened, IsWhitespace, LineClosed;
    }
  }

  lemma EventEndsLines(cfg: Config, pal: Palette, tags: Tags, d: Draft, ev: Event)
    requires EndsLines(d)
    ensures EndsLines(WantNext(cfg, pal, tags, d, ev))
  {
    hide EndsLines, WordClosed, LineClosed, BlockClosed, AddText, AddSpan, AddCode, InCode, InTitle, LinkOf, StylesOf,
         PrefixOf, ItemMarker;
    var prefix, outer := PrefixOf(cfg, tags), PrefixOf(cfg, NextTags(tags, ev));
    var ended := WordClosed(d, prefix);
    WordEndsLines(d, prefix);
    ClosedEndsLines(d, prefix);
    ClosedEndsLines(d, outer);
    ClosedEndsLines(ended, outer);
    ClosedEndsLines(ended, prefix);
    MarkerEndsLines(LineClosed(ended), prefix);
    SpaceEndsLines(ended);
    if ev.Text? || ev.CodeSpan? || ev.SoftBreak? || ev.EndLink? {
      InlineEndsLines(cfg, pal, tags, d, ev);
    }
  }

  lemma MarkerEndsLines(d: Draft, prefix: string)
    requires EndsLines(d)
    ensures forall marker :: EndsLines(MarkerSet(d, prefix + marker))
  {
  }

  lemma SpaceEndsLines(d: Draft)
    requires EndsLines(d)
    ensures forall attrs :: EndsLines(d.(space := Some(attrs)))
  {
  }

  lemma InlineEndsLines(cfg: Config, pal: Palette, tags: Tags, d: Draft, ev: Event)
    requires EndsLines(d) && (ev.Text? || ev.CodeSpan? || ev.SoftBreak? || ev.EndLink?)
    ensures EndsLines(WantInline(cfg, pal, tags, d, ev))
  {
    hide EndsLines, AddText, AddSpan, AddCode, InCode, InTitle, LinkOf, StylesOf, PrefixOf, WordClosed;
    var here, prefix := Mask(cfg, AttrsOf(cfg, pal, tags)), PrefixOf(cfg, tags);
    WordEndsLines(d, prefix);
    SpaceEndsLines(WordClosed(d, prefix));
    if ev.Text? {
      TextEndsLines(d, ev.text, here, prefix);
      TextEndsLines(d, ev.text, Mask(cfg, Attrs(StylesOf(cfg, pal, tags), None)), prefix);
    } else if ev.CodeSpan? {
      var styles := if InTitle(tags) then StylesOf(cfg, pal, tags) else StylesOf(cfg, pal, tags) + [pal.code];
      TextEndsLines(d, ev.code, Mask(cfg, Attrs(styles, LinkOf(tags))), prefix);
    } else if ev.EndLink? && LinkOf(tags).Some? {
      TextEndsLines(SpaceAdded(d, here, prefix), "<" + LinkOf(tags).value + ">", here, prefix);
    }
  }

  // ----- the whole of it -----

  /** A line is going to start with `s`, and nothing is pending. */
  ghost predicate Awaits(d: Draft, s: string) {
    d.word == Nil && !d.place.Within? && d.marker == Some(s) && AtLineStart(d.text)
  }

  /** `mid` only opens further tags behind `evs`, other than items. */
  predicate Opens(mid: Rev<Event>, evs: Rev<Event>) {
    mid == evs || (mid.Snoc? && Opened(mid.last).Some? && Opens(mid.init, evs))
  }

  lemma ItemAwaits(cfg: Config, pal: Palette, evs: Rev<Event>) returns (m: string)
    requires WellNested(Snoc(evs, StartItem))
    ensures OpenLists(evs).Snoc? && Marks(m, OpenLists(evs).last)
    ensures Awaits(WantAll(cfg, pal, Snoc(evs, StartItem)), PrefixOf(cfg, TagsAfter(evs)) + m)
  {
    var prefix, d := PrefixOf(cfg, TagsAfter(evs)), WantAll(cfg, pal, evs);
    NextItemMarked(evs);
    m := ItemMarker(TagsAfter(evs).last.next);
    LineStartsClean(cfg, pal, evs);
    WordEndsLines(d, prefix);
    ClosedEndsLines(WordClosed(d, prefix), prefix);
    hide WordClosed, PrefixOf, ItemMarker, WellNested, OpenLists, TagsAfter, Marks;
  }

  lemma {:induction false} OpensAwaits(cfg: Config, pal: Palette, mid: Rev<Event>, evs: Rev<Event>, s: string)
    requires Opens(mid, evs) && Awaits(WantAll(cfg, pal, evs), s)
    ensures Awaits(WantAll(cfg, pal, mid), s)
  {
    if mid != evs {
      OpensAwaits(cfg, pal, mid.init, evs, s);
      hide PrefixOf;
    }
  }

  lemma {:induction false} LeadsShown(shown: Page, wanted: Page, s: string) returns (before: Page)
    requires Shows(shown, AddLeads(wanted, s), More)
    ensures shown == AddLeads(before, s) && Shows(before, wanted, More)
  {
    if s == "" {
      before := shown;
    } else {
      before := LeadsShown(shown.init, wanted, s[..|s| - 1]);
    }
  }

  /** Neither wrapping nor trimming moves the start of a line, or the ink right behind it. */
  lemma {:induction false} ShowsPlaced(shown: Page, wanted: Page, after: After, s: string, cell: Cell)
    requires Shows(shown, wanted, after) && Placed(wanted, s, cell) && cell.c != ' '
    ensures Placed(shown, s, cell)
    decreases Gaps(wanted), wanted
  {
    var before :| AtLineStart(before) && Extends(wanted, Snoc(AddLeads(before, s), Char(cell)));
    var start := Snoc(AddLeads(before, s), Char(cell));
    if wanted == start {
      var b := LeadsShown(shown.init, before, s);
      LineStartShown(b, before);
      assert Extends(shown, Snoc(AddLeads(b, s), Char(cell)));
    } else {
      var init, p := wanted.init, wanted.last;
      assert Placed(init, s, cell);
      var rest := if p.End? then LineEnds else More;
      if !Drops(after, p) && shown.Snoc? && shown.last == AsShown(p) && Shows(shown.init, init, rest) {
        ShowsPlaced(shown.init, init, rest, s, cell);
        assert Extends(shown, shown.init);
        PlacedOn(shown.init, shown, s, cell);
      } else if Drops(after, p) && Shows(shown, init, Missing(LooksOf(p))) {
        ShowsPlaced(shown, init, Missing(LooksOf(p)), s, cell);
      } else {
        var broken := AddLeads(Snoc(init, End), p.next);
        LeadsExtend(Snoc(init, End), p.next);
        ExtendsOn(Snoc(init, End), init, start);
        ExtendsOn(broken, Snoc(init, End), start);
        assert Placed(broken, s, cell);
        ShowsPlaced(shown, broken, after, s, cell);
      }
    }
  }

  lemma LineStartShown(shown: Page, wanted: Page)
    requires Shows(shown, wanted, More) && AtLineStart(wanted)
    ensures AtLineStart(shown)
  {
  }

  lemma {:induction false} PartNests(all: Rev<Event>, evs: Rev<Event>)
    requires WellNested(all) && Extends(all, evs)
    ensures WellNested(evs)
  {
    if all != evs {
      PartNests(all.init, evs);
    }
  }

  lemma {:induction false} OpensExtend(mid: Rev<Event>, evs: Rev<Event>)
    requires Opens(mid, evs)
    ensures Extends(mid, evs)
  {
    if mid != evs {
      OpensExtend(mid.init, evs);
    }
  }

  /** Wherever an item of a list starts in a well-nested stream and text follows, be it in a
      paragraph, in a style or in a link, the output has a line that starts with the prefix
      of the blocks around, the item's marker, and then the text: a hyphen in a plain list,
      and the first number plus the number of items before in a numbered one. */
  lemma MarkerShown(cfg: Config, pal: Palette, all: Rev<Event>, mid: Rev<Event>, evs: Rev<Event>, text: string)
      returns (m: string)
    requires WellNested(all) && !InCode(TagsAfter(all))
    requires Extends(all, Snoc(mid, Text(text))) && Opens(mid, Snoc(evs, StartItem)) && !InCode(TagsAfter(mid))
    requires text != "" && !IsWhitespace(text[0])
    ensures OpenLists(evs).Snoc? && Marks(m, OpenLists(evs).last)
    ensures Placed(View(Rendered(cfg, pal, all)), PrefixOf(cfg, TagsAfter(evs)) + m,
                   Cell(text[0], Mask(cfg, AttrsOf(cfg, pal, TagsAfter(mid)))))
  {
    var at, tags := Snoc(mid, Text(text)), TagsAfter(mid);
    PartNests(all, at);
    OpensExtend(mid, Snoc(evs, StartItem));
    PartNests(mid, Snoc(evs, StartItem));
    m := ItemAwaits(cfg, pal, evs);
    var s, cell := PrefixOf(cfg, TagsAfter(evs)) + m, Cell(text[0], Mask(cfg, AttrsOf(cfg, pal, tags)));
    OpensAwaits(cfg, pal, mid, Snoc(evs, StartItem), s);
    FirstOfText(WantAll(cfg, pal, mid), text, cell.attrs, PrefixOf(cfg, tags), s);
    TextWanted(cfg, pal, mid, text);
    StreamPlaces(cfg, pal, all, at, s, cell);
    WholePlaces(WantAll(cfg, pal, all), PrefixOf(cfg, TagsAfter(all)), s, cell);
    RenderedSound(cfg, pal, all);
    ShowsPlaced(View(Rendered(cfg, pal, all)), Wanted(cfg, pal, all), More, s, cell);
    hide *;
  }

  lemma TextWanted(cfg: Config, pal: Palette, mid: Rev<Event>, text: string)
    requires !InCode(TagsAfter(mid))
    ensures WantAll(cfg, pal, Snoc(mid, Text(text)))
            == AddText(WantAll(cfg, pal, mid), text, Mask(cfg, AttrsOf(cfg, pal, TagsAfter(mid))),
                       PrefixOf(cfg, TagsAfter(mid)))
  {
    hide AddText, PrefixOf, AttrsOf, InCode, TagsAfter;
  }

  lemma WholePlaces(d: Draft, prefix: string, s: string, cell: Cell)
    requires Starts(d, s, cell)
    ensures Placed(Whole(d, prefix), s, cell)
  {
    WordPlaces(d, prefix, s, cell);
    LinesPlace(WordClosed(d, prefix), prefix, s, cell);
    hide Placed, WordClosed, LineClosed;
  }

  // ----- the prefix of a line -----

  /** Each quote, block of code and definition around adds its own columns to the prefix,
      behind those of the blocks around it; and an item, its indent. */
  lemma PrefixGrows(cfg: Config, tags: Tags, t: Tag)
    ensures PrefixOf(cfg, Nil) == ""
    ensures t.Quote? ==> PrefixOf(cfg, Snoc(tags, t)) == PrefixOf(cfg, tags) + "\U{2502} "
    ensures t.CodeBlock? || t.Definition? ==> PrefixOf(cfg, Snoc(tags, t)) == PrefixOf(cfg, tags) + "    "
    ensures t.Item? ==> PrefixOf(cfg, Snoc(tags, t)) == PrefixOf(cfg, tags) + Blanks(TextWidth(cfg, t.marker))
    ensures !t.Quote? && !t.CodeBlock? && !t.Definition? && !t.Item?
            ==> PrefixOf(cfg, Snoc(tags, t)) == PrefixOf(cfg, tags)
  {
    if SegmentOf(cfg, t) == [] {
      assert SegmentsOf(cfg, Snoc(tags, t)) == SegmentsOf(cfg, tags);
    } else {
      ConcatPush(SegmentsOf(cfg, tags), SegmentOf(cfg, t)[0]);
    }
    hide Concat, Blanks, TextWidth;
  }
}
