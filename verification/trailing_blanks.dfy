/** Exactly when the lines of the output end without blanks. */
module TrailingBlanks {
  import opened Wrappers
  import opened LineLayout
  import opened Terminal

  /** No line ends in a blank. */
  predicate NoTrailingBlank(out: Rev<Item>) {
    match out
    case Nil => true
    case Snoc(init, item) => NoTrailingBlank(init) && (item.Newline? ==> !EndsBlank(init))
  }

  predicate EndsBlank(out: Rev<Item>) {
    LastGlyph(out).Some? && LastGlyph(out).value.0 == ' '
  }

  predicate EndsInEscape(out: Rev<Item>) {
    out.Snoc? && !out.last.Glyph? && !out.last.Newline?
  }

  /** How the last character of the line is shown. */
  function LastShown(out: Rev<Item>): Option<Attrs> {
    match out
    case Nil => None
    case Snoc(init, item) =>
      if item.Newline? then None else if item.Glyph? then Some(Shown(init)) else LastShown(init)
  }

  /** How the blanks at the end of the line are shown, prefix and all. */
  function Tail(out: Rev<Item>): set<Attrs> {
    match out
    case Nil => {}
    case Snoc(init, item) =>
      if item.Newline? then {}
      else if item.Glyph? then if item.c == ' ' then Tail(init) + {Shown(init)} else {}
      else Tail(init)
  }

  predicate Alike(tail: set<Attrs>) {
    forall a, b | a in tail && b in tail :: a == b
  }

  /** Between two characters of a line there are escapes only if they are shown differently. */
  predicate EscapesNeeded(out: Rev<Item>) {
    match out
    case Nil => true
    case Snoc(init, item) =>
      && EscapesNeeded(init)
      && (item.Glyph? && EndsInEscape(init) && LastShown(init).Some? ==> LastShown(init).value != Shown(init))
  }

  predicate Neat(out: Rev<Item>) {
    EscapesNeeded(out) && !EndsInEscape(out)
  }

  // ----- trimming -----

  lemma {:induction false} TailEndsShown(out: Rev<Item>)
    ensures EndsBlank(out) ==> LastShown(out).Some? && LastShown(out).value in Tail(out)
    ensures !EndsBlank(out) ==> Tail(out) == {}
    ensures LastShown(out).Some? <==> LastGlyph(out).Some?
  {
    if out.Snoc? {
      TailEndsShown(out.init);
    }
  }

  /** Trimming stops at the first escape: it takes all the blanks exactly if they are all
      shown alike. */
  lemma {:induction false} TrimExact(out: Rev<Item>)
    requires Neat(out)
    ensures EndsBlank(TrimBlanks(out)) <==> !Alike(Tail(out))
    ensures EscapesNeeded(TrimBlanks(out)) && NoTrailingBlank(TrimBlanks(out)) == NoTrailingBlank(out)
  {
    if out.Snoc? && out.last.Glyph? && out.last.c == ' ' {
      var init := out.init;
      TailEndsShown(init);
      if EndsInEscape(init) {
        assert Shown(init) in Tail(out);
        assert EndsBlank(init) ==> LastShown(init).value in Tail(out);
      } else {
        TrimExact(init);
        NotDimmed(init);
        TrimKeepsLines(init);
      }
    } else {
      TailEndsShown(out);
    }
  }

  lemma NotDimmed(out: Rev<Item>)
    requires !EndsInEscape(out)
    ensures LastShown(out).Some? ==> LastShown(out).value == Shown(out)
    ensures EndsBlank(out) ==> Tail(out) + {Shown(out)} == Tail(out)
  {
    TailEndsShown(out);
  }

  lemma {:induction false} TrimKeepsLines(out: Rev<Item>)
    ensures NoTrailingBlank(TrimBlanks(out)) == NoTrailingBlank(out)
  {
    if out.Snoc? && out.last.Glyph? && out.last.c == ' ' {
      TrimKeepsLines(out.init);
    }
  }

  // ----- writing -----

  /** Output that differs in escapes at its end only. */
  predicate SameLine(a: Rev<Item>, b: Rev<Item>) {
    && Tail(a) == Tail(b) && LastShown(a) == LastShown(b) && EscapesNeeded(a) == EscapesNeeded(b)
    && NoTrailingBlank(a) == NoTrailingBlank(b) && LastGlyph(a) == LastGlyph(b)
  }

  lemma {:induction false} StylesOnSameLine(out: Rev<Item>, styles: seq<Style>, from: nat)
    requires from <= |styles|
    ensures SameLine(out, StylesOn(out, styles, from))
    ensures |styles| > from ==> EndsInEscape(StylesOn(out, styles, from))
  {
    if |styles| > from {
      StylesOnSameLine(out, styles[..|styles| - 1], from);
    }
  }

  lemma StyleDiffSameLine(out: Rev<Item>, emitted: seq<Style>, desired: seq<Style>)
    ensures SameLine(out, StyleDiff(out, emitted, desired))
    ensures if emitted == desired then StyleDiff(out, emitted, desired) == out
            else EndsInEscape(StyleDiff(out, emitted, desired))
  {
    if emitted <= desired {
      StylesOnSameLine(out, desired, |emitted|);
    } else {
      StylesOnSameLine(if emitted == [] then out else Snoc(out, Reset), desired, 0);
    }
  }

  lemma LinkDiffSameLine(out: Rev<Item>, emitted: Option<string>, desired: Option<string>)
    ensures SameLine(out, LinkDiff(out, emitted, desired))
    ensures if emitted == desired then LinkDiff(out, emitted, desired) == out
            else EndsInEscape(LinkDiff(out, emitted, desired))
  {
  }

  /** A sync writes escapes exactly if something about the presentation changes. */
  lemma SyncSameLine(cfg: Config, out: Rev<Item>, emitted: Attrs, desired: Attrs)
    requires Mask(cfg, emitted) == emitted
    ensures SameLine(out, Sync(cfg, out, emitted, desired))
    ensures if emitted == Mask(cfg, desired) then Sync(cfg, out, emitted, desired) == out
            else EndsInEscape(Sync(cfg, out, emitted, desired))
  {
    var out1 := if cfg.color then StyleDiff(out, emitted.styles, desired.styles) else out;
    StyleDiffSameLine(out, emitted.styles, desired.styles);
    LinkDiffSameLine(out1, emitted.link, desired.link);
    hide SameLine, StyleDiff, LinkDiff;
    SameLineTransitive(out, out1, if cfg.hyperlinks then LinkDiff(out1, emitted.link, desired.link) else out1);
  }

  lemma SameLineTransitive(a: Rev<Item>, b: Rev<Item>, c: Rev<Item>)
    requires (SameLine(a, b) || a == b) && (SameLine(b, c) || b == c)
    ensures SameLine(a, c)
  {
  }

  /** The tail of a line after one more character. */
  function MoreTail(tail: set<Attrs>, c: char, attrs: Attrs): set<Attrs> {
    if c == ' ' then tail + {attrs} else {}
  }

  lemma PutNeat(cfg: Config, w: Writer, cell: Cell, role: Role)
    requires w.line.Open? && Neat(w.out) && Shown(w.out) == w.line.emitted
             && Mask(cfg, w.line.emitted) == w.line.emitted
    ensures var out := Put(cfg, w, cell, role).out;
            && Neat(out) && NoTrailingBlank(out) == NoTrailingBlank(w.out)
            && Tail(out) == MoreTail(Tail(w.out), cell.c, Mask(cfg, cell.attrs))
  {
    var synced := Sync(cfg, w.out, w.line.emitted, cell.attrs);
    SyncSameLine(cfg, w.out, w.line.emitted, cell.attrs);
    SyncShown(cfg, w.out, w.line.emitted, cell.attrs);
    NotDimmed(w.out);
    hide Sync, Synced, Mask, SameText;
  }

  /** The tail of a line after a word. */
  function WordTail(cfg: Config, tail: set<Attrs>, word: Rev<Cell>): set<Attrs> {
    match word
    case Nil => tail
    case Snoc(init, cell) => MoreTail(WordTail(cfg, tail, init), cell.c, Mask(cfg, cell.attrs))
  }

  lemma {:induction false} PutAllNeat(cfg: Config, w: Writer, word: Rev<Cell>, role: Role)
    requires OpenInv(cfg, w) && Neat(w.out) && (role == Word || role == Verbatim)
    ensures var out := PutAll(cfg, w, word, role).out;
            && Neat(out) && NoTrailingBlank(out) == NoTrailingBlank(w.out)
            && Tail(out) == WordTail(cfg, Tail(w.out), word)
  {
    if word.Snoc? {
      PutAllNeat(cfg, w, word.init, role);
      PutWord(cfg, w, word.init, role);
      PutNeat(cfg, PutAll(cfg, w, word.init, role), word.last, role);
      hide Put, Mask, Neat, Tail;
    }
  }

  // ----- line starts and ends -----

  /** The blanks a prefix ends in are shown plain. */
  function PrefixTail(prefix: string): set<Attrs> {
    if prefix != "" && prefix[|prefix| - 1] == ' ' then {PLAIN} else {}
  }

  lemma {:induction false} PrefixNeat(out: Rev<Item>, s: string)
    requires Neat(out) && Shown(out) == PLAIN && (out == Nil || out.last == Newline)
    ensures var out' := PrefixText(out, s);
            && Neat(out') && NoTrailingBlank(out') == NoTrailingBlank(out) && Shown(out') == PLAIN
            && Tail(out') == PrefixTail(s)
            && (EndsBlank(out') <==> s != "" && s[|s| - 1] == ' ')
  {
    if s != "" {
      PrefixNeat(out, s[..|s| - 1]);
    }
  }

  /** The prefix of the next line. */
  function NextPrefix(w: Writer): string {
    if w.nextOverride.Some? then w.nextOverride.value else Concat(w.segments)
  }

  lemma OpenLineNeat(cfg: Config, w: Writer)
    requires Inv(cfg, w) && !w.line.Open? && Neat(w.out)
    ensures var out := OpenLine(cfg, w).out;
            Neat(out) && NoTrailingBlank(out) == NoTrailingBlank(w.out) && Tail(out) == PrefixTail(NextPrefix(w))
  {
    hide PrefixText, Concat, TrimEnd, Tail;
    var out := w.out;
    if w.line.AfterBlock? && w.out != Nil {
      var trimmed := TrimEnd(w.line.prefix);
      out := Snoc(PrefixText(w.out, trimmed), Newline);
      assert trimmed == "" || trimmed[|trimmed| - 1] != ' ';
      PrefixNeat(w.out, trimmed);
    }
    PrefixNeat(out, NextPrefix(w));
  }

  /** A line ends without blanks exactly if the blanks it would end in are shown alike. */
  lemma EndLineExact(cfg: Config, w: Writer)
    requires w.line.Open? && Neat(w.out)
    ensures var out := EndLine(cfg, w).out;
            Neat(out) && (NoTrailingBlank(out) <==> NoTrailingBlank(w.out) && Alike(Tail(w.out)))
  {
    TrimExact(w.out);
    hide TrimBlanks, Tail, Alike;
    var out := TrimBlanks(w.out);
    var out1 := if w.line.emitted.link.Some? then Snoc(out, LinkClose) else out;
    var out2 := if cfg.color && w.line.emitted.styles != [] then Snoc(out1, Reset) else out1;
    assert LastGlyph(out1) == LastGlyph(out) && NoTrailingBlank(out1) == NoTrailingBlank(out) && EscapesNeeded(out1);
    assert LastGlyph(out2) == LastGlyph(out1) && NoTrailingBlank(out2) == NoTrailingBlank(out1) && EscapesNeeded(out2);
  }

  // ----- whole runs -----

  /** A flush that breaks the line. */
  predicate Wraps(cfg: Config, w: Writer) {
    w.word != Nil && w.line.Open? && w.pending.Some? && w.line.column + 1 + WordWidth(cfg, w.word) > cfg.width
  }

  /** If the operation ends a line, that line's last blanks are shown alike. */
  predicate LineEndsAlike(cfg: Config, w: Writer, op: Op) {
    match op
    case AddSpace => Wraps(cfg, w) ==> Alike(Tail(w.out))
    case FlushWord => Wraps(cfg, w) ==> Alike(Tail(w.out))
    case FinishLine => w.line.Open? ==> Alike(Tail(w.out))
    case FinishBlock => w.line.Open? ==> Alike(Tail(w.out))
    case AddVerbatim(c) => c == '\n' ==> Alike(Tail(OpenLine(cfg, w).out))
    case _ => true
  }

  /** The tail of the line a flush leaves open. */
  function FlushedTail(cfg: Config, w: Writer): set<Attrs> {
    WordTail(cfg, if w.line.Open? && w.pending.Some? && !Wraps(cfg, w) then Tail(w.out) + {Mask(cfg, w.pending.value)}
                  else PrefixTail(NextPrefix(w)), w.word)
  }

  lemma FlushExact(cfg: Config, w: Writer)
    requires Inv(cfg, w) && FlushReady(w) && Neat(w.out)
    ensures Neat(Flush(cfg, w).out)
    ensures NoTrailingBlank(Flush(cfg, w).out) <==> NoTrailingBlank(w.out) && (Wraps(cfg, w) ==> Alike(Tail(w.out)))
    ensures w.word != Nil ==> Tail(Flush(cfg, w).out) == FlushedTail(cfg, w)
  {
    hide Neat, Tail, NoTrailingBlank, PrefixTail, Alike;
    var w0 := w.(pending := None, word := Nil);
    if w.word == Nil {
    } else if !w.line.Open? {
      OpenLineNeat(cfg, w0);
      OpenLineFacts(cfg, w0);
      PutAllNeat(cfg, OpenLine(cfg, w0), w.word, Word);
    } else if Wraps(cfg, w) {
      var w1 := EndLine(cfg, w0);
      EndLineExact(cfg, w0);
      EndLineFacts(cfg, w0);
      OpenLineNeat(cfg, w1);
      OpenLineFacts(cfg, w1);
      PutAllNeat(cfg, OpenLine(cfg, w1), w.word, Word);
    } else {
      var cell := Cell(' ', w.pending.value);
      PutNeat(cfg, w0, cell, Space);
      PutGlyph(cfg, w0, cell, Space);
      PutAllNeat(cfg, Put(cfg, w0, cell, Space), w.word, Word);
    }
  }

  lemma VerbatimExact(cfg: Config, w: Writer, c: char)
    requires Inv(cfg, w) && Ready(w, AddVerbatim(c)) && Neat(w.out)
    ensures var out := Step(cfg, w, AddVerbatim(c)).out;
            && Neat(out) && (NoTrailingBlank(out) <==> NoTrailingBlank(w.out) && LineEndsAlike(cfg, w, AddVerbatim(c)))
  {
    hide Neat, Tail, NoTrailingBlank, Alike;
    var w1 := OpenLine(cfg, w);
    if !w.line.Open? {
      OpenLineNeat(cfg, w);
      OpenLineFacts(cfg, w);
    }
    if c == '\n' {
      EndLineExact(cfg, w1);
    } else {
      PutNeat(cfg, w1, Cell(c, Attrs(w.desired.styles, None)), Verbatim);
    }
  }

  /** An operation leaves all lines without trailing blanks exactly if they were so, and
      the line it ends, if it ends one, has its last blanks shown alike. */
  lemma StepExact(cfg: Config, w: Writer, op: Op)
    requires Inv(cfg, w) && Ready(w, op) && Neat(w.out)
    ensures var out := Step(cfg, w, op).out;
            Neat(out) && (NoTrailingBlank(out) <==> NoTrailingBlank(w.out) && LineEndsAlike(cfg, w, op))
  {
    hide Neat, Tail, NoTrailingBlank, Alike;
    if op.AddSpace? || op.FlushWord? {
      FlushExact(cfg, w);
    } else if op.FinishLine? || op.FinishBlock? {
      if w.line.Open? {
        EndLineExact(cfg, w);
      }
    } else if op.AddVerbatim? {
      VerbatimExact(cfg, w, op.c);
    }
  }

  predicate LinesEndAlike(cfg: Config, w: Writer, ops: Rev<Op>) {
    match ops
    case Nil => true
    case Snoc(init, op) => LinesEndAlike(cfg, w, init) && LineEndsAlike(cfg, Run(cfg, w, init), op)
  }

  /** The same over every run of operations. */
  lemma {:induction false} RunExact(cfg: Config, w: Writer, ops: Rev<Op>)
    requires Inv(cfg, w) && AllReady(cfg, w, ops) && Neat(w.out)
    ensures var out := Run(cfg, w, ops).out;
            && Inv(cfg, Run(cfg, w, ops)) && Neat(out)
            && (NoTrailingBlank(out) <==> NoTrailingBlank(w.out) && LinesEndAlike(cfg, w, ops))
  {
    match ops
    case Nil =>
    case Snoc(init, op) =>
      RunExact(cfg, w, init);
      StepInv(cfg, Run(cfg, w, init), op);
      StepExact(cfg, Run(cfg, w, init), op);
      hide Inv, Ready, Neat, NoTrailingBlank, LineEndsAlike;
  }

  predicate LastLinesEndAlike(cfg: Config, w: Writer) {
    && (Wraps(cfg, w) ==> Alike(Tail(w.out)))
    && (Flush(cfg, w).line.Open? ==> Alike(Tail(Flush(cfg, w).out)))
  }

  lemma FinishExact(cfg: Config, w: Writer)
    requires Inv(cfg, w) && FlushReady(w) && Neat(w.out)
    ensures NoTrailingBlank(Finish(cfg, w)) <==> NoTrailingBlank(w.out) && LastLinesEndAlike(cfg, w)
  {
    hide Neat, Tail, NoTrailingBlank, Alike, Wraps;
    FlushExact(cfg, w);
    if Flush(cfg, w).line.Open? {
      EndLineExact(cfg, Flush(cfg, w));
    }
  }
}
