/** Documents as trees: the streams they give are the ones that the renderer takes. */
module Documents {
  import opened Wrappers
  import opened LineLayout
  import opened ShownText
  import opened Terminal
  import opened HelpEvents
  import opened HelpRenderer

  datatype Face = Emphasized | Strongly | Struck

  /** Text and markup within a line. */
  datatype Inline =
    | Words(text: string) | Code(code: string) | SoftEnd | HardEnd | Foreign(name: string)
    | Styled(face: Face, inner: Inlines)
    | Linked(url: Option<string>, inner: Inlines)

  datatype Inlines = NoInline | Inlines(first: Inline, rest: Inlines)

  /** Blocks; text right in an item, without a paragraph, is a block here. */
  datatype Block =
    | Loose(inlines: Inlines) | Paragraphed(inlines: Inlines) | Headed(inlines: Inlines)
    | Quoted(blocks: Blocks)
    | Fenced(chunks: seq<string>)
    | Listed(start: Option<nat>, items: Items)
    | Defined(terms: Terms)

  datatype Blocks = NoBlock | Blocks(first: Block, rest: Blocks)

  datatype Items = NoItem | Items(first: Blocks, rest: Items)

  datatype Terms = NoTerm | Title(title: Inlines, rest: Terms) | Meaning(meaning: Blocks, rest: Terms)

  // ----- no link in a link -----

  predicate LinksApart(xs: Inlines, linked: bool) {
    match xs
    case NoInline => true
    case Inlines(x, rest) =>
      && LinksApart(rest, linked)
      && match x
         case Styled(_, inner) => LinksApart(inner, linked)
         case Linked(_, inner) => !linked && LinksApart(inner, true)
         case _ => true
  }

  predicate BlocksApart(bs: Blocks) {
    match bs
    case NoBlock => true
    case Blocks(b, rest) => BlockApart(b) && BlocksApart(rest)
  }

  predicate BlockApart(b: Block) {
    match b
    case Loose(xs) => LinksApart(xs, false)
    case Paragraphed(xs) => LinksApart(xs, false)
    case Headed(xs) => LinksApart(xs, false)
    case Quoted(bs) => BlocksApart(bs)
    case Fenced(_) => true
    case Listed(_, items) => ItemsApart(items)
    case Defined(terms) => TermsApart(terms)
  }

  predicate ItemsApart(items: Items) {
    items.NoItem? || (BlocksApart(items.first) && ItemsApart(items.rest))
  }

  predicate TermsApart(terms: Terms) {
    match terms
    case NoTerm => true
    case Title(xs, rest) => LinksApart(xs, false) && TermsApart(rest)
    case Meaning(bs, rest) => BlocksApart(bs) && TermsApart(rest)
  }

  // ----- the events of a document -----

  function FaceStart(s: Face): Event {
    match s
    case Emphasized => StartEmphasis
    case Strongly => StartStrong
    case Struck => StartStrikethrough
  }

  function AddInlines(evs: Rev<Event>, xs: Inlines): Rev<Event>
    decreases xs
  {
    if xs.NoInline? then evs else AddInlines(AddInline(evs, xs.first), xs.rest)
  }

  function AddInline(evs: Rev<Event>, x: Inline): Rev<Event>
    decreases x
  {
    match x
    case Words(text) => Snoc(evs, Text(text))
    case Code(code) => Snoc(evs, CodeSpan(code))
    case SoftEnd => Snoc(evs, SoftBreak)
    case HardEnd => Snoc(evs, HardBreak)
    case Foreign(name) => Snoc(evs, Unsupported(name))
    case Styled(s, inner) => Snoc(AddInlines(Snoc(evs, FaceStart(s)), inner), EndStyle)
    case Linked(url, inner) => Snoc(AddInlines(Snoc(evs, StartLink(url)), inner), EndLink)
  }

  function AddChunks(evs: Rev<Event>, chunks: seq<string>): Rev<Event>
    decreases chunks
  {
    if chunks == [] then evs else AddChunks(Snoc(evs, Text(chunks[0])), chunks[1..])
  }

  function AddBlocks(evs: Rev<Event>, bs: Blocks): Rev<Event>
    decreases bs
  {
    if bs.NoBlock? then evs else AddBlocks(AddBlock(evs, bs.first), bs.rest)
  }

  function AddBlock(evs: Rev<Event>, b: Block): Rev<Event>
    decreases b
  {
    match b
    case Loose(xs) => AddInlines(evs, xs)
    case Paragraphed(xs) => Snoc(AddInlines(Snoc(evs, StartParagraph), xs), EndParagraph)
    case Headed(xs) => Snoc(AddInlines(Snoc(evs, StartHeading), xs), EndHeading)
    case Quoted(bs) => Snoc(AddBlocks(Snoc(evs, StartQuote), bs), EndQuote)
    case Fenced(chunks) => Snoc(AddChunks(Snoc(evs, StartCode), chunks), EndCode)
    case Listed(start, items) => Snoc(AddItems(Snoc(evs, StartList(start)), items), EndList)
    case Defined(terms) => Snoc(AddTerms(Snoc(evs, StartDefinitions), terms), EndDefinitions)
  }

  function AddItems(evs: Rev<Event>, items: Items): Rev<Event>
    decreases items
  {
    if items.NoItem? then evs
    else AddItems(Snoc(AddBlocks(Snoc(evs, StartItem), items.first), EndItem), items.rest)
  }

  function AddTerms(evs: Rev<Event>, terms: Terms): Rev<Event>
    decreases terms
  {
    match terms
    case NoTerm => evs
    case Title(xs, rest) => AddTerms(Snoc(AddInlines(Snoc(evs, StartTitle), xs), EndTitle), rest)
    case Meaning(bs, rest) => AddTerms(Snoc(AddBlocks(Snoc(evs, StartDefinition), bs), EndDefinition), rest)
  }

  // ----- they nest -----

  /** Where blocks may stand. */
  predicate OpenTo(tags: Tags) {
    Proper(tags) && !InCode(tags) && !InTitle(tags) && !InLink(tags)
  }

  /** The stream is well nested so far, and these tags are open. */
  predicate At(evs: Rev<Event>, tags: Tags) {
    WellNested(evs) && TagsAfter(evs) == tags
  }

  lemma Starts(evs: Rev<Event>, tags: Tags, ev: Event)
    requires At(evs, tags) && Opened(ev).Some? && Proper(Snoc(tags, Opened(ev).value))
    ensures At(Snoc(evs, ev), Snoc(tags, Opened(ev).value))
  {
  }

  lemma Ends(evs: Rev<Event>, tags: Tags, t: Tag, ev: Event)
    requires At(evs, Snoc(tags, t)) && IsEnd(ev) && Closes(ev, t)
    ensures At(Snoc(evs, ev), tags)
  {
  }

  lemma {:induction false} InlinesNest(evs: Rev<Event>, tags: Tags, xs: Inlines)
    requires At(evs, tags) && Proper(tags) && !InCode(tags) && LinksApart(xs, InLink(tags))
    ensures At(AddInlines(evs, xs), tags)
    decreases xs, 0
  {
    hide At, Proper, InCode, InLink, InTitle;
    if xs.Inlines? {
      InlineNests(evs, tags, xs.first);
      InlinesNest(AddInline(evs, xs.first), tags, xs.rest);
    }
  }

  /** Markup within a line is open to more of it. */
  lemma SpanOpen(tags: Tags, t: Tag)
    requires Proper(tags) && !InCode(tags) && IsInline(t) && (t.Link? ==> !InLink(tags))
    ensures Proper(Snoc(tags, t)) && !InCode(Snoc(tags, t)) && InLink(Snoc(tags, t)) == (t.Link? || InLink(tags))
  {
  }

  lemma SpanNests(evs: Rev<Event>, tags: Tags, start: Event, inner: Inlines, end: Event)
    requires At(evs, tags) && Proper(tags) && !InCode(tags) && Opened(start).Some? && IsInline(Opened(start).value)
    requires IsEnd(end) && Closes(end, Opened(start).value)
    requires start.StartLink? ==> !InLink(tags)
    requires LinksApart(inner, start.StartLink? || InLink(tags))
    ensures At(Snoc(AddInlines(Snoc(evs, start), inner), end), tags)
    decreases inner, 1
  {
    hide At, Proper, InCode, InLink, LinksApart;
    var t := Opened(start).value;
    SpanOpen(tags, t);
    Starts(evs, tags, start);
    InlinesNest(Snoc(evs, start), Snoc(tags, t), inner);
    Ends(AddInlines(Snoc(evs, start), inner), tags, t, end);
  }

  lemma {:induction false} InlineNests(evs: Rev<Event>, tags: Tags, x: Inline)
    requires At(evs, tags) && Proper(tags) && !InCode(tags)
    requires x.Styled? ==> LinksApart(x.inner, InLink(tags))
    requires x.Linked? ==> !InLink(tags) && LinksApart(x.inner, true)
    ensures At(AddInline(evs, x), tags)
    decreases x
  {
    hide Proper, InLink, InTitle, LinksApart;
    if x.Styled? {
      SpanNests(evs, tags, FaceStart(x.face), x.inner, EndStyle);
    } else if x.Linked? {
      SpanNests(evs, tags, StartLink(x.url), x.inner, EndLink);
    }
  }

  /** A block with inline content. */
  lemma InlineBlockNests(evs: Rev<Event>, tags: Tags, start: Event, xs: Inlines, end: Event)
    requires At(evs, tags) && OpenTo(tags) && LinksApart(xs, false)
    requires (start, end) in {(StartParagraph, EndParagraph), (StartHeading, EndHeading), (StartTitle, EndTitle)}
    ensures At(Snoc(AddInlines(Snoc(evs, start), xs), end), tags)
  {
    var t := Opened(start).value;
    Starts(evs, tags, start);
    InlinesNest(Snoc(evs, start), Snoc(tags, t), xs);
    Ends(AddInlines(Snoc(evs, start), xs), tags, t, end);
  }

  lemma {:induction false} ChunksNest(evs: Rev<Event>, tags: Tags, chunks: seq<string>)
    requires At(evs, tags)
    ensures At(AddChunks(evs, chunks), tags)
    decreases chunks
  {
    if chunks != [] {
      ChunksNest(Snoc(evs, Text(chunks[0])), tags, chunks[1..]);
    }
  }

  lemma {:induction false} BlocksNest(evs: Rev<Event>, tags: Tags, bs: Blocks)
    requires At(evs, tags) && OpenTo(tags) && BlocksApart(bs)
    ensures At(AddBlocks(evs, bs), tags)
    decreases bs
  {
    hide At, OpenTo;
    if bs.Blocks? {
      BlockNests(evs, tags, bs.first);
      BlocksNest(AddBlock(evs, bs.first), tags, bs.rest);
    }
  }

  /** Quotes, items and definitions are open to blocks. */
  lemma StillOpen(tags: Tags, t: Tag)
    requires OpenTo(tags) && (t.Quote? || t.Definition? || t.Definitions? || t.List?)
    ensures OpenTo(Snoc(tags, t))
  {
  }

  lemma {:induction false} BlockNests(evs: Rev<Event>, tags: Tags, b: Block)
    requires At(evs, tags) && OpenTo(tags) && BlockApart(b)
    ensures At(AddBlock(evs, b), tags)
    decreases b
  {
    match b
    case Loose(xs) => InlinesNest(evs, tags, xs);
    case Paragraphed(xs) => InlineBlockNests(evs, tags, StartParagraph, xs, EndParagraph);
    case Headed(xs) => InlineBlockNests(evs, tags, StartHeading, xs, EndHeading);
    case Quoted(bs) =>
      StillOpen(tags, Quote);
      Starts(evs, tags, StartQuote);
      BlocksNest(Snoc(evs, StartQuote), Snoc(tags, Quote), bs);
      Ends(AddBlocks(Snoc(evs, StartQuote), bs), tags, Quote, EndQuote);
    case Fenced(chunks) =>
      Starts(evs, tags, StartCode);
      ChunksNest(Snoc(evs, StartCode), Snoc(tags, CodeBlock), chunks);
      Ends(AddChunks(Snoc(evs, StartCode), chunks), tags, CodeBlock, EndCode);
    case Listed(start, items) =>
      StillOpen(tags, List(start));
      Starts(evs, tags, StartList(start));
      var next := ItemsNest(Snoc(evs, StartList(start)), tags, start, items);
      Ends(AddItems(Snoc(evs, StartList(start)), items), tags, List(next), EndList);
    case Defined(terms) =>
      StillOpen(tags, HelpEvents.Definitions);
      Starts(evs, tags, StartDefinitions);
      TermsNest(Snoc(evs, StartDefinitions), Snoc(tags, HelpEvents.Definitions), terms);
      Ends(AddTerms(Snoc(evs, StartDefinitions), terms), tags, HelpEvents.Definitions, EndDefinitions);
  }

  lemma ItemOpen(tags: Tags, item: Tag)
    requires OpenTo(tags) && tags.Snoc? && tags.last.List? && item.Item?
    ensures OpenTo(Snoc(tags, item))
  {
  }

  lemma ItemStarts(evs: Rev<Event>, tags: Tags, next: Option<nat>) returns (item: Tag)
    requires At(evs, Snoc(tags, List(next))) && OpenTo(tags)
    ensures item.Item? && OpenTo(Snoc(Snoc(tags, List(NextOrdinal(next))), item))
    ensures At(Snoc(evs, StartItem), Snoc(Snoc(tags, List(NextOrdinal(next))), item))
  {
    item := Item(ItemMarker(next));
    StillOpen(tags, List(NextOrdinal(next)));
    ItemOpen(Snoc(tags, List(NextOrdinal(next))), item);
    hide ItemMarker;
  }

  lemma {:induction false} ItemsNest(evs: Rev<Event>, tags: Tags, from: Option<nat>, items: Items)
    returns (next: Option<nat>)
    requires At(evs, Snoc(tags, List(from))) && OpenTo(tags) && ItemsApart(items)
    ensures At(AddItems(evs, items), Snoc(tags, List(next)))
    decreases items
  {
    hide At, OpenTo;
    next := from;
    if items.Items? {
      var item := ItemStarts(evs, tags, from);
      var within := Snoc(tags, List(NextOrdinal(from)));
      BlocksNest(Snoc(evs, StartItem), Snoc(within, item), items.first);
      Ends(AddBlocks(Snoc(evs, StartItem), items.first), within, item, EndItem);
      next := ItemsNest(Snoc(AddBlocks(Snoc(evs, StartItem), items.first), EndItem), tags, NextOrdinal(from),
        items.rest);
    }
  }

  lemma {:induction false} TermsNest(evs: Rev<Event>, tags: Tags, terms: Terms)
    requires At(evs, tags) && OpenTo(tags) && TermsApart(terms)
    ensures At(AddTerms(evs, terms), tags)
    decreases terms
  {
    match terms
    case NoTerm =>
    case Title(xs, rest) =>
      InlineBlockNests(evs, tags, StartTitle, xs, EndTitle);
      TermsNest(Snoc(AddInlines(Snoc(evs, StartTitle), xs), EndTitle), tags, rest);
    case Meaning(bs, rest) =>
      StillOpen(tags, Definition);
      Starts(evs, tags, StartDefinition);
      BlocksNest(Snoc(evs, StartDefinition), Snoc(tags, Definition), bs);
      Ends(AddBlocks(Snoc(evs, StartDefinition), bs), tags, Definition, EndDefinition);
      TermsNest(Snoc(AddBlocks(Snoc(evs, StartDefinition), bs), EndDefinition), tags, rest);
  }

  /** Every document without a link in a link gives a well-nested stream that closes all it
      opens: its output shows the text that its events want. */
  lemma DocumentShown(cfg: Config, pal: Palette, doc: Blocks)
    requires BlocksApart(doc)
    ensures var evs := AddBlocks(Nil, doc);
            && WellNested(evs) && TagsAfter(evs) == Nil
            && Shows(View(Rendered(cfg, pal, evs)), Wanted(cfg, pal, evs), More)
  {
    BlocksNest(Nil, Nil, doc);
    RenderedSound(cfg, pal, AddBlocks(Nil, doc));
    hide Shows, View, Rendered, Wanted, AddBlocks;
  }
}
