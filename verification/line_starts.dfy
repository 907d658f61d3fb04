/** Which prefix each line carries, and when a line is broken. */
module LineStarts {
  import opened Wrappers
  import opened LineLayout
  import opened ShownText
  import opened Terminal
  import opened TrailingBlanks

  /** The prefix on the current line. */
  function LinePrefix(out: Rev<Item>): string {
    match out
    case Nil => ""
    case Snoc(init, item) =>
      if item.Newline? then ""
      else if item.Glyph? && item.role == Prefix then LinePrefix(init) + [item.c]
      else LinePrefix(init)
  }

  /** How many lines have ended. */
  function LineCount(out: Rev<Item>): nat {
    match out
    case Nil => 0
    case Snoc(init, item) => LineCount(init) + if item.Newline? then 1 else 0
  }

  // ----- what escapes, words and trimming leave alone -----

  predicate SameStart(a: Rev<Item>, b: Rev<Item>) {
    LinePrefix(a) == LinePrefix(b) && LineCount(a) == LineCount(b)
  }

  lemma {:induction false} StylesOnSameStart(out: Rev<Item>, styles: seq<Style>, from: nat)
    requires from <= |styles|
    ensures SameStart(out, StylesOn(out, styles, from))
  {
    if |styles| > from {
      StylesOnSameStart(out, styles[..|styles| - 1], from);
    }
  }

  lemma SyncSameStart(cfg: Config, out: Rev<Item>, emitted: Attrs, desired: Attrs)
    ensures SameStart(out, Sync(cfg, out, emitted, desired))
  {
    if emitted.styles <= desired.styles {
      StylesOnSameStart(out, desired.styles, |emitted.styles|);
    } else {
      StylesOnSameStart(if emitted.styles == [] then out else Snoc(out, Reset), desired.styles, 0);
    }
  }

  lemma PutSameStart(cfg: Config, w: Writer, cell: Cell, role: Role)
    requires role != Prefix && w.line.Open?
    ensures SameStart(w.out, Put(cfg, w, cell, role).out) && Put(cfg, w, cell, role).line.Open?
  {
    SyncSameStart(cfg, w.out, w.line.emitted, cell.attrs);
    hide Sync;
  }

  lemma {:induction false} PutAllSameStart(cfg: Config, w: Writer, cells: Rev<Cell>, role: Role)
    requires role != Prefix && w.line.Open?
    ensures SameStart(w.out, PutAll(cfg, w, cells, role).out) && PutAll(cfg, w, cells, role).line.Open?
  {
    if cells.Snoc? {
      PutAllSameStart(cfg, w, cells.init, role);
      PutSameStart(cfg, PutAll(cfg, w, cells.init, role), cells.last, role);
      hide Put;
    }
  }

  lemma {:induction false} TrimSameCount(out: Rev<Item>)
    ensures LineCount(TrimBlanks(out)) == LineCount(out)
  {
    if out.Snoc? && out.last.Glyph? && out.last.c == ' ' {
      TrimSameCount(out.init);
    }
  }

  lemma {:induction false} PrefixWritten(out: Rev<Item>, s: string)
    ensures LinePrefix(PrefixText(out, s)) == LinePrefix(out) + s
    ensures LineCount(PrefixText(out, s)) == LineCount(out)
  {
    if s == "" {
      assert LinePrefix(out) + "" == LinePrefix(out);
    } else {
      var n := |s| - 1;
      PrefixWritten(out, s[..n]);
      assert (LinePrefix(out) + s[..n]) + [s[n]] == LinePrefix(out) + s;
    }
  }

  // ----- opening and ending lines -----

  lemma {:induction false} PrefixShown(out: Rev<Item>, s: string)
    ensures View(PrefixText(out, s)) == AddLeads(View(out), s)
  {
    if s != "" {
      PrefixShown(out, s[..|s| - 1]);
    }
  }

  /** A line opens with the marker set for it, if there is one, and else with all prefixes
      in force; the marker is used up. After a block a line comes first, with what is left
      of the block's prefix when its whitespace is dropped. */
  lemma LineOpens(cfg: Config, w: Writer)
    requires !w.line.Open? && (w.out == Nil || w.out.last == Newline)
    ensures var w' := OpenLine(cfg, w);
            var parted := w.line.AfterBlock? && w.out != Nil;
            && w'.line.Open? && LinePrefix(w'.out) == NextPrefix(w) && w'.nextOverride == None
            && LineCount(w'.out) == LineCount(w.out) + (if parted then 1 else 0)
            && View(w'.out)
               == AddLeads(if parted then Snoc(AddLeads(View(w.out), TrimEnd(w.line.prefix)), End) else View(w.out),
                           NextPrefix(w))
  {
    hide PrefixText, Concat, TrimEnd, AddLeads;
    var out := w.out;
    if w.line.AfterBlock? && w.out != Nil {
      var trimmed := TrimEnd(w.line.prefix);
      out := Snoc(PrefixText(w.out, trimmed), Newline);
      PrefixWritten(w.out, trimmed);
      PrefixShown(w.out, trimmed);
    }
    PrefixWritten(out, NextPrefix(w));
    PrefixShown(out, NextPrefix(w));
    assert "" + NextPrefix(w) == NextPrefix(w);
  }

  /** A block that ends, with something written, is parted from what follows by a line that
      has its prefix, trimmed, whatever prefixes are in force by then. */
  lemma BlocksParted(cfg: Config, w: Writer, segments: seq<string>)
    requires Inv(cfg, w) && EndLine(cfg, w).out != Nil
    ensures var w' := EndBlock(cfg, w).(segments := segments);
            View(OpenLine(cfg, w').out)
            == AddLeads(Snoc(AddLeads(View(EndLine(cfg, w).out), TrimEnd(Concat(w.segments))), End), NextPrefix(w'))
  {
    EndLineAny(cfg, w);
    hide EndLine, View, AddLeads, TrimEnd, Concat, NextPrefix, OpenLine;
    LineOpens(cfg, EndBlock(cfg, w).(segments := segments));
  }

  lemma LineEnds(cfg: Config, w: Writer)
    ensures LineCount(EndLine(cfg, w).out) == LineCount(w.out) + if w.line.Open? then 1 else 0
    ensures w.line.Open? ==> EndLine(cfg, w).out.Snoc? && EndLine(cfg, w).out.last == Newline
  {
    TrimSameCount(w.out);
    hide TrimBlanks;
    if w.line.Open? {
      var out := TrimBlanks(w.out);
      var out1 := if w.line.emitted.link.Some? then Snoc(out, LinkClose) else out;
      var out2 := if cfg.color && w.line.emitted.styles != [] then Snoc(out1, Reset) else out1;
      assert LineCount(out1) == LineCount(out) && LineCount(out2) == LineCount(out1);
    }
  }

  // ----- breaking lines -----

  /** A word on an open line starts a new line exactly if it does not fit on this one after
      the space before it. */
  lemma BreaksOnlyWhenFull(cfg: Config, w: Writer)
    requires Inv(cfg, w) && w.line.Open? && w.word != Nil && w.pending.Some?
    ensures LineCount(Flush(cfg, w).out) == LineCount(w.out)
            + if CurrentWidth(cfg, w.out) + 1 + WordWidth(cfg, w.word) > cfg.width then 1 else 0
  {
    hide EndLine, OpenLine, Put, PutAll, WordWidth, LinePrefix, LineCount, NextPrefix;
    FlushStarts(cfg, w);
  }

  /** A flush writes on the line that is open, with its prefix, or on a new one with the
      prefix of the next line. */
  lemma FlushStarts(cfg: Config, w: Writer)
    requires Inv(cfg, w) && w.word != Nil
    ensures var w' := Flush(cfg, w);
            && w'.line.Open?
            && (w.line.Open? ==> LineCount(w'.out) == LineCount(w.out) + if Wraps(cfg, w) then 1 else 0)
            && LinePrefix(w'.out) == (if w.line.Open? && !Wraps(cfg, w) then LinePrefix(w.out) else NextPrefix(w))
            && w'.nextOverride == (if w.line.Open? && !Wraps(cfg, w) then w.nextOverride else None)
  {
    hide LinePrefix, LineCount, NextPrefix, EndLine, OpenLine, Put, WordWidth;
    var w0 := w.(pending := None, word := Nil);
    SameNextPrefix(cfg, w, w0);
    if !w.line.Open? {
      LineOpens(cfg, w0);
      WordSameStart(cfg, OpenLine(cfg, w0), w.word);
    } else if Wraps(cfg, w) {
      var w1 := EndLine(cfg, w0);
      LineEnds(cfg, w0);
      LineOpens(cfg, w1);
      WordSameStart(cfg, OpenLine(cfg, w1), w.word);
    } else if w.pending.Some? {
      PutSameStart(cfg, w0, Cell(' ', w.pending.value), Space);
      PutKeepsOverride(cfg, w0, Cell(' ', w.pending.value), Space);
      WordSameStart(cfg, Put(cfg, w0, Cell(' ', w.pending.value), Space), w.word);
    } else {
      WordSameStart(cfg, w0, w.word);
    }
  }

  lemma SameNextPrefix(cfg: Config, w: Writer, w0: Writer)
    requires w0 == w.(pending := None, word := Nil)
    ensures NextPrefix(w0) == NextPrefix(w)
    ensures w.line.Open? ==> EndLine(cfg, w0).line == AtStart && NextPrefix(EndLine(cfg, w0)) == NextPrefix(w)
    ensures w.line.Open? ==> EndLine(cfg, w0).out.Snoc?
  {
    hide TrimBlanks, Concat;
  }

  lemma PutKeepsOverride(cfg: Config, w: Writer, cell: Cell, role: Role)
    ensures Put(cfg, w, cell, role).nextOverride == w.nextOverride
  {
  }

  lemma {:induction false} WordSameStart(cfg: Config, w: Writer, cells: Rev<Cell>)
    requires w.line.Open?
    ensures var w' := PutAll(cfg, w, cells, Word);
            SameStart(w.out, w'.out) && w'.line.Open? && w'.nextOverride == w.nextOverride
  {
    if cells.Snoc? {
      WordSameStart(cfg, w, cells.init);
      PutSameStart(cfg, PutAll(cfg, w, cells.init, Word), cells.last, Word);
      PutKeepsOverride(cfg, PutAll(cfg, w, cells.init, Word), cells.last, Word);
      hide Put, LinePrefix, LineCount;
    }
  }

  /** Whatever is asked of the writer: an open line keeps its prefix, and every line that
      opens has the prefix of the next line; and a marker serves the first line that opens
      after it was set, and no other. */
  lemma LinesCarryPrefix(cfg: Config, w: Writer, op: Op)
    requires Inv(cfg, w) && Ready(w, op)
    ensures var w' := Step(cfg, w, op);
            && (w'.line.Open? ==>
                  LinePrefix(w'.out) == if w.line.Open? && LineCount(w'.out) == LineCount(w.out)
                                        then LinePrefix(w.out) else NextPrefix(w))
            && (op.SetMarker? ==> NextPrefix(w') == Concat(w.segments) + op.marker)
            && (!op.SetMarker? && w'.line.Open? && !(w.line.Open? && LineCount(w'.out) == LineCount(w.out))
               ==> w'.nextOverride == None)
            && (!op.SetMarker? ==> w'.nextOverride == None || w'.nextOverride == w.nextOverride)
  {
    hide LinePrefix, LineCount, NextPrefix, Concat, Flush, OpenLine, Wraps;
    if op.AddSpace? || op.FlushWord? {
      FlushPrefix(cfg, w);
    } else if op.FinishLine? || op.FinishBlock? {
      LineEnds(cfg, w);
    } else if op.AddVerbatim? {
      CodeCarriesPrefix(cfg, w, op.c);
    } else if op.SetMarker? {
      MarkerIsNext(w, op.marker);
    }
  }

  lemma MarkerIsNext(w: Writer, marker: string)
    ensures NextPrefix(w.(nextOverride := Some(Concat(w.segments) + marker))) == Concat(w.segments) + marker
  {
  }

  lemma FlushPrefix(cfg: Config, w: Writer)
    requires Inv(cfg, w)
    ensures var w' := Flush(cfg, w);
            && (w'.line.Open? ==>
                  LinePrefix(w'.out) == if w.line.Open? && LineCount(w'.out) == LineCount(w.out)
                                        then LinePrefix(w.out) else NextPrefix(w))
            && (w'.line.Open? && !(w.line.Open? && LineCount(w'.out) == LineCount(w.out)) ==> w'.nextOverride == None)
            && (w'.nextOverride == None || w'.nextOverride == w.nextOverride)
  {
    if w.word != Nil {
      FlushStarts(cfg, w);
      hide Flush, LinePrefix, LineCount, NextPrefix, Wraps;
    }
  }

  lemma CodeCarriesPrefix(cfg: Config, w: Writer, c: char)
    requires Inv(cfg, w)
    ensures var w' := Step(cfg, w, AddVerbatim(c));
            && (w'.line.Open? ==>
                  LinePrefix(w'.out) == if w.line.Open? && LineCount(w'.out) == LineCount(w.out)
                                        then LinePrefix(w.out) else NextPrefix(w))
            && (w'.line.Open? && !(w.line.Open? && LineCount(w'.out) == LineCount(w.out)) ==> w'.nextOverride == None)
            && (w'.nextOverride == None || w'.nextOverride == w.nextOverride)
  {
    hide LinePrefix, LineCount, NextPrefix;
    var w1 := OpenLine(cfg, w);
    if !w.line.Open? {
      LineOpens(cfg, w);
    }
    if c == '\n' {
      LineEnds(cfg, w1);
    } else {
      PutSameStart(cfg, w1, Cell(c, Attrs(w.desired.styles, None)), Verbatim);
      PutKeepsOverride(cfg, w1, Cell(c, Attrs(w.desired.styles, None)), Verbatim);
    }
  }
}
