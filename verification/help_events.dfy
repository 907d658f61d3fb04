/** Markdown events: which streams are well nested, and what text a stream asks for. */
module HelpEvents {
  import opened Wrappers
  import opened CharClasses
  import opened LineLayout
  import opened WantedText
  import opened DecimalText

  datatype Palette = Palette(
    heading: Style, emphasis: Style, strong: Style, strikethrough: Style, code: Style, term: Style, link: Style)

  /** The events that are handled, with links already resolved: `None` for an anchor on
      the same page. */
  datatype Event =
    | StartParagraph | EndParagraph
    | StartHeading | EndHeading
    | StartQuote | EndQuote
    | StartCode | EndCode
    | StartList(start: Option<nat>) | EndList
    | StartItem | EndItem
    | StartDefinitions | EndDefinitions
    | StartTitle | EndTitle
    | StartDefinition | EndDefinition
    | StartEmphasis | StartStrong | StartStrikethrough | EndStyle
    | StartLink(url: Option<string>) | EndLink
    | Text(text: string)
    | CodeSpan(code: string)
    | SoftBreak | HardBreak
    | Unsupported(name: string)

  const DEFINITION_INDENT := "    "
  const QUOTE_PREFIX := "\U{2502} "
  const CODE_INDENT := "    "

  function Blanks(n: nat): string {
    if n == 0 then "" else Blanks(n - 1) + " "
  }

  function ItemMarker(ordinal: Option<nat>): string {
    if ordinal.Some? then NatText(ordinal.value) + ". " else "- "
  }

  function NextOrdinal(ordinal: Option<nat>): Option<nat> {
    if ordinal.Some? then Some(ordinal.value + 1) else None
  }

  // ----- nesting -----

  /** An open tag. A list knows its next ordinal, and an item its marker. */
  datatype Tag =
    | Paragraph | Heading | Quote | CodeBlock
    | List(next: Option<nat>) | Item(marker: string)
    | Definitions | Title | Definition
    | Emphasis | Strong | Strikethrough
    | Link(url: Option<string>)

  /** The open tags, the innermost last. */
  type Tags = Rev<Tag>

  predicate IsInline(t: Tag) {
    t.Emphasis? || t.Strong? || t.Strikethrough? || t.Link?
  }

  predicate InCode(tags: Tags) {
    tags.Snoc? && (tags.last.CodeBlock? || InCode(tags.init))
  }

  predicate InTitle(tags: Tags) {
    tags.Snoc? && (tags.last.Title? || InTitle(tags.init))
  }

  predicate InLink(tags: Tags) {
    tags.Snoc? && (tags.last.Link? || InLink(tags.init))
  }

  /** What markdown nests: nothing in code, no block in a definition's title, no link in a
      link, and items right inside lists. */
  predicate Proper(tags: Tags) {
    match tags
    case Nil => true
    case Snoc(init, t) =>
      && Proper(init) && !InCode(init)
      && (!IsInline(t) ==> !InTitle(init))
      && (t.Link? ==> !InLink(init))
      && (t.Item? ==> init.Snoc? && init.last.List?)
  }

  function Opened(ev: Event): Option<Tag> {
    match ev
    case StartParagraph => Some(Paragraph)
    case StartHeading => Some(Heading)
    case StartQuote => Some(Quote)
    case StartCode => Some(CodeBlock)
    case StartList(start) => Some(List(start))
    case StartDefinitions => Some(Definitions)
    case StartTitle => Some(Title)
    case StartDefinition => Some(Definition)
    case StartEmphasis => Some(Emphasis)
    case StartStrong => Some(Strong)
    case StartStrikethrough => Some(Strikethrough)
    case StartLink(url) => Some(Link(url))
    case _ => None
  }

  predicate Closes(ev: Event, t: Tag) {
    match ev
    case EndParagraph => t.Paragraph?
    case EndHeading => t.Heading?
    case EndQuote => t.Quote?
    case EndCode => t.CodeBlock?
    case EndList => t.List?
    case EndItem => t.Item?
    case EndDefinitions => t.Definitions?
    case EndTitle => t.Title?
    case EndDefinition => t.Definition?
    case EndStyle => t.Emphasis? || t.Strong? || t.Strikethrough?
    case EndLink => t.Link?
    case _ => false
  }

  predicate IsEnd(ev: Event) {
    || ev.EndParagraph? || ev.EndHeading? || ev.EndQuote? || ev.EndCode? || ev.EndList? || ev.EndItem?
    || ev.EndDefinitions? || ev.EndTitle? || ev.EndDefinition? || ev.EndStyle? || ev.EndLink?
  }

  /** The tags that are open after an event. */
  function NextTags(tags: Tags, ev: Event): Tags {
    if Opened(ev).Some? then Snoc(tags, Opened(ev).value)
    else if ev.StartItem? && tags.Snoc? && tags.last.List? then
      Snoc(Snoc(tags.init, List(NextOrdinal(tags.last.next))), Item(ItemMarker(tags.last.next)))
    else if IsEnd(ev) && tags.Snoc? then tags.init
    else tags
  }

  predicate NestsWell(tags: Tags, ev: Event) {
    if Opened(ev).Some? then Proper(Snoc(tags, Opened(ev).value))
    else if ev.StartItem? then tags.Snoc? && tags.last.List?
    else if IsEnd(ev) then tags.Snoc? && Closes(ev, tags.last)
    else ev.Text? || !InCode(tags)
  }

  function TagsAfter(evs: Rev<Event>): Tags {
    match evs
    case Nil => Nil
    case Snoc(init, ev) => NextTags(TagsAfter(init), ev)
  }

  predicate WellNested(evs: Rev<Event>) {
    match evs
    case Nil => true
    case Snoc(init, ev) => WellNested(init) && NestsWell(TagsAfter(init), ev)
  }

  lemma {:induction false} WellNestedTags(evs: Rev<Event>)
    requires WellNested(evs)
    ensures Proper(TagsAfter(evs))
  {
    if evs.Snoc? {
      WellNestedTags(evs.init);
    }
  }

  // ----- what the open tags ask for -----

  function StyleOf(cfg: Config, pal: Palette, t: Tag): seq<Style> {
    match t
    case Heading => [pal.heading]
    case Title => [pal.term]
    case CodeBlock => [pal.code]
    case Emphasis => [pal.emphasis]
    case Strong => [pal.strong]
    case Strikethrough => [pal.strikethrough]
    case Link(url) => if url.Some? && cfg.hyperlinks then [pal.link] else []
    case _ => []
  }

  /** The styles of the tags around, outermost first. */
  function StylesOf(cfg: Config, pal: Palette, tags: Tags): seq<Style> {
    match tags
    case Nil => []
    case Snoc(init, t) => StylesOf(cfg, pal, init) + StyleOf(cfg, pal, t)
  }

  function LinkOf(tags: Tags): Option<string> {
    match tags
    case Nil => None
    case Snoc(init, t) => if t.Link? then t.url else LinkOf(init)
  }

  function AttrsOf(cfg: Config, pal: Palette, tags: Tags): Attrs {
    Attrs(StylesOf(cfg, pal, tags), LinkOf(tags))
  }

  function SegmentOf(cfg: Config, t: Tag): seq<string> {
    match t
    case Quote => [QUOTE_PREFIX]
    case CodeBlock => [CODE_INDENT]
    case Item(marker) => [Blanks(TextWidth(cfg, marker))]
    case Definition => [DEFINITION_INDENT]
    case _ => []
  }

  /** The prefixes of the tags around, outermost first. */
  function SegmentsOf(cfg: Config, tags: Tags): seq<string> {
    match tags
    case Nil => []
    case Snoc(init, t) => SegmentsOf(cfg, init) + SegmentOf(cfg, t)
  }

  // ----- the text a stream asks for -----

  function PrefixOf(cfg: Config, tags: Tags): string {
    Concat(SegmentsOf(cfg, tags))
  }

  /** Whitespace in running text is a breakable space. */
  function AddText(d: Draft, s: string, attrs: Attrs, prefix: string): Draft {
    if s == "" then d
    else
      var c, d1 := s[|s| - 1], AddText(d, s[..|s| - 1], attrs, prefix);
      if IsWhitespace(c) then SpaceAdded(d1, attrs, prefix) else CharAdded(d1, Cell(c, attrs))
  }

  /** Inline code is kept as it is. */
  function AddSpan(d: Draft, s: string, attrs: Attrs): Draft {
    if s == "" then d else CharAdded(AddSpan(d, s[..|s| - 1], attrs), Cell(s[|s| - 1], attrs))
  }

  /** So is code in a block, line by line. */
  function AddCode(d: Draft, s: string, attrs: Attrs, prefix: string): Draft {
    if s == "" then d else CodeAdded(AddCode(d, s[..|s| - 1], attrs, prefix), Cell(s[|s| - 1], attrs), prefix)
  }

  /** Text and inline markup. */
  function WantInline(cfg: Config, pal: Palette, tags: Tags, d: Draft, ev: Event): Draft {
    var here, prefix := Mask(cfg, AttrsOf(cfg, pal, tags)), PrefixOf(cfg, tags);
    match ev
    case Text(s) =>
      if InCode(tags) then AddCode(d, s, Mask(cfg, Attrs(StylesOf(cfg, pal, tags), None)), prefix)
      else AddText(d, s, here, prefix)
    case CodeSpan(s) =>
      AddSpan(d, s, if InTitle(tags) then here
                    else Mask(cfg, Attrs(StylesOf(cfg, pal, tags) + [pal.code], LinkOf(tags))))
    case SoftBreak => SpaceAdded(d, here, prefix)
    case HardBreak => LineClosed(WordClosed(d, prefix))
    case EndLink =>
      if LinkOf(tags).Some? && !cfg.hyperlinks then
        AddSpan(SpaceAdded(d, here, prefix), "<" + LinkOf(tags).value + ">", here)
      else d
    case _ => d
  }

  /** A block that starts. Code and an item end the word and the line before them, a heading
      and a definition's title only the line, and other blocks nothing. */
  function WantStart(cfg: Config, tags: Tags, d: Draft, ev: Event): Draft {
    var prefix := PrefixOf(cfg, tags);
    match ev
    case StartCode => LineClosed(WordClosed(d, prefix))
    case StartItem =>
      var marker := if tags.Snoc? && tags.last.List? then ItemMarker(tags.last.next) else "";
      MarkerSet(LineClosed(WordClosed(d, prefix)), prefix + marker)
    case StartHeading => BlockClosed(d, prefix)
    case StartTitle => BlockClosed(d, prefix)
    case _ => d
  }

  /** A block that ends, back among the blocks around it. */
  function WantEnd(cfg: Config, tags: Tags, d: Draft, ev: Event): Draft {
    var ended, outer := WordClosed(d, PrefixOf(cfg, tags)), PrefixOf(cfg, NextTags(tags, ev));
    match ev
    case EndParagraph => BlockClosed(ended, outer)
    case EndHeading => BlockClosed(ended, outer)
    case EndQuote => BlockClosed(ended, outer)
    case EndDefinition => BlockClosed(ended, outer)
    case EndItem => LineClosed(ended)
    case EndTitle => LineClosed(ended)
    case EndCode => BlockClosed(d, outer)
    case EndList => BlockClosed(d, outer)
    case _ => d
  }

  function WantNext(cfg: Config, pal: Palette, tags: Tags, d: Draft, ev: Event): Draft {
    if ev.StartItem? || Opened(ev).Some? then WantStart(cfg, tags, d, ev)
    else if IsEnd(ev) && !ev.EndLink? then WantEnd(cfg, tags, d, ev)
    else WantInline(cfg, pal, tags, d, ev)
  }

  function WantAll(cfg: Config, pal: Palette, evs: Rev<Event>): Draft {
    match evs
    case Nil => BLANK
    case Snoc(init, ev) => WantNext(cfg, pal, TagsAfter(init), WantAll(cfg, pal, init), ev)
  }
}
