/** Truncating colored text to a width, and the name of a test instance printed with it. */
module Truncation {
  import opened Wrappers

  /** A text as its escape sequences and the stretches between them. */
  datatype Segment = Segment(text: string, isAnsi: bool)

  type Text = seq<Segment>

  datatype Piece = Code(code: string) | Visible(c: char)

  type CharWidth = char -> nat

  function Width(charWidth: CharWidth, s: string): nat {
    if s == "" then 0 else Width(charWidth, s[..|s| - 1]) + charWidth(s[|s| - 1])
  }

  /** What is left of a text without its escape sequences. */
  function Stripped(text: Text): string {
    if text == [] then ""
    else Stripped(text[..|text| - 1]) + if text[|text| - 1].isAnsi then "" else text[|text| - 1].text
  }

  function Codes(text: Text): seq<string> {
    if text == [] then []
    else Codes(text[..|text| - 1]) + if text[|text| - 1].isAnsi then [text[|text| - 1].text] else []
  }

  function Pieces(text: Text): seq<Piece> {
    if text == [] then []
    else
      Pieces(text[..|text| - 1])
      + if text[|text| - 1].isAnsi then [Code(text[|text| - 1].text)] else Chars(text[|text| - 1].text)
  }

  function Chars(s: string): seq<Piece> {
    seq(|s|, i requires 0 <= i < |s| => Visible(s[i]))
  }

  function VisibleOf(pieces: seq<Piece>): string {
    if pieces == [] then ""
    else VisibleOf(pieces[..|pieces| - 1]) + if pieces[|pieces| - 1].Visible? then [pieces[|pieces| - 1].c] else ""
  }

  function CodesOf(pieces: seq<Piece>): seq<string> {
    if pieces == [] then []
    else CodesOf(pieces[..|pieces| - 1]) + if pieces[|pieces| - 1].Code? then [pieces[|pieces| - 1].code] else []
  }

  /** The visible width of a text: escape sequences take no room. */
  function TextWidth(charWidth: CharWidth, text: Text): nat {
    Width(charWidth, Stripped(text))
  }

  lemma {:induction false} VisibleOfConcat(a: seq<Piece>, b: seq<Piece>)
    ensures VisibleOf(a + b) == VisibleOf(a) + VisibleOf(b)
    ensures CodesOf(a + b) == CodesOf(a) + CodesOf(b)
  {
    if b == [] {
      assert a + b == a;
    } else {
      var init, last := b[..|b| - 1], b[|b| - 1];
      VisibleOfConcat(a, init);
      assert (a + b)[..|a + b| - 1] == a + init && (a + b)[|a + b| - 1] == last;
      var c, k := if last.Visible? then [last.c] else "", if last.Code? then [last.code] else [];
      assert (VisibleOf(a) + VisibleOf(init)) + c == VisibleOf(a) + (VisibleOf(init) + c);
      assert (CodesOf(a) + CodesOf(init)) + k == CodesOf(a) + (CodesOf(init) + k);
    }
  }

  lemma {:induction false} CharsVisible(s: string)
    ensures VisibleOf(Chars(s)) == s && CodesOf(Chars(s)) == []
  {
    if s != "" {
      assert Chars(s)[..|s| - 1] == Chars(s[..|s| - 1]);
      CharsVisible(s[..|s| - 1]);
    }
  }

  /** Untouched text has all its characters and all its escape sequences. */
  lemma {:induction false} PiecesAreAll(text: Text)
    ensures VisibleOf(Pieces(text)) == Stripped(text) && CodesOf(Pieces(text)) == Codes(text)
  {
    if text != [] {
      var n := |text| - 1;
      PiecesAreAll(text[..n]);
      CharsVisible(text[n].text);
      VisibleOfConcat(Pieces(text[..n]), if text[n].isAnsi then [Code(text[n].text)] else Chars(text[n].text));
      assert [Code(text[n].text)][..0] == [];
    }
  }

  lemma {:induction false} WidthConcat(charWidth: CharWidth, a: string, b: string)
    ensures Width(charWidth, a + b) == Width(charWidth, a) + Width(charWidth, b)
  {
    if b == "" {
      assert a + b == a;
    } else {
      WidthConcat(charWidth, a, b[..|b| - 1]);
      assert (a + b)[..|a + b| - 1] == a + b[..|b| - 1];
    }
  }

  // ----- which characters are kept -----

  /** The characters of one stretch that lie between the columns `start` and `end`, when
      `before` columns come before the stretch. */
  function Kept(charWidth: CharWidth, before: nat, s: string, start: nat, end: nat): string {
    if s == "" then ""
    else
      var n := |s| - 1;
      Kept(charWidth, before, s[..n], start, end)
      + if start <= before + Width(charWidth, s[..n]) && before + Width(charWidth, s) <= end then [s[n]] else ""
  }

  function Truncated(charWidth: CharWidth, text: Text, start: nat, end: nat): seq<Piece> {
    if text == [] then []
    else
      var n := |text| - 1;
      var before := TextWidth(charWidth, text[..n]);
      Truncated(charWidth, text[..n], start, end)
      + if text[n].isAnsi then [Code(text[n].text)]
        else if before >= end then []
        else Chars(Kept(charWidth, before, text[n].text, start, end))
  }

  lemma TruncatedNext(charWidth: CharWidth, text: Text, k: nat, start: nat, end: nat)
    requires k < |text|
    ensures Truncated(charWidth, text[..k + 1], start, end) ==
            Truncated(charWidth, text[..k], start, end)
            + if text[k].isAnsi then [Code(text[k].text)]
              else if TextWidth(charWidth, text[..k]) >= end then []
              else Chars(Kept(charWidth, TextWidth(charWidth, text[..k]), text[k].text, start, end))
    ensures TextWidth(charWidth, text[..k + 1]) ==
            TextWidth(charWidth, text[..k]) + if text[k].isAnsi then 0 else Width(charWidth, text[k].text)
  {
    assert text[..k + 1][..k] == text[..k];
    WidthConcat(charWidth, Stripped(text[..k]), if text[k].isAnsi then "" else text[k].text);
  }

  lemma TruncatedEnds(charWidth: CharWidth, text: Text, start: nat, end: nat)
    ensures Truncated(charWidth, text[..0], start, end) == [] && TextWidth(charWidth, text[..0]) == 0
    ensures text[..|text|] == text
  {
    assert text[..0] == [];
  }

  /** Walks the text once, keeping count of the columns passed. */
  method TruncateAnsiAware(charWidth: CharWidth, text: Text, start: nat, end: nat) returns (res: seq<Piece>)
    ensures res == Truncated(charWidth, text, start, end)
  {
    hide *;
    TruncatedEnds(charWidth, text, start, end);
    var pos := 0;
    res := [];
    var k := 0;
    while k < |text|
      invariant 0 <= k <= |text|
      invariant res == Truncated(charWidth, text[..k], start, end)
      invariant pos == TextWidth(charWidth, text[..k]) || end <= pos <= TextWidth(charWidth, text[..k])
    {
      TruncatedNext(charWidth, text, k, start, end);
      if text[k].isAnsi {
        res := res + [Code(text[k].text)];
      } else if pos < end {
        var chars;
        chars, pos := TruncateStretch(charWidth, text[k].text, pos, start, end);
        res := res + chars;
      }
      k := k + 1;
    }
  }

  method TruncateStretch(charWidth: CharWidth, s: string, before: nat, start: nat, end: nat)
    returns (res: seq<Piece>, pos: nat)
    ensures res == Chars(Kept(charWidth, before, s, start, end))
    ensures pos == before + Width(charWidth, s) || end < pos <= before + Width(charWidth, s)
  {
    pos := before;
    res := [];
    var i := 0;
    assert s[..0] == "";
    while i < |s|
      invariant 0 <= i <= |s|
      invariant res == Chars(Kept(charWidth, before, s[..i], start, end))
      invariant pos == before + Width(charWidth, s[..i])
    {
      assert s[..i + 1][..i] == s[..i];
      ghost var kept := Kept(charWidth, before, s[..i], start, end);
      var w := charWidth(s[i]);
      if start <= pos && pos + w <= end {
        assert Chars(kept + [s[i]]) == Chars(kept) + [Visible(s[i])];
        res := res + [Visible(s[i])];
      } else {
        assert kept + "" == kept;
      }
      pos := pos + w;
      i := i + 1;
      if pos > end {
        NothingMoreKept(charWidth, before, s, i, start, end);
        return;
      }
    }
    assert s[..|s|] == s;
  }

  lemma {:induction false} NothingMoreKept(charWidth: CharWidth, before: nat, s: string, i: nat, start: nat, end: nat)
    requires i <= |s| && before + Width(charWidth, s[..i]) > end
    ensures Kept(charWidth, before, s, start, end) == Kept(charWidth, before, s[..i], start, end)
    ensures Width(charWidth, s[..i]) <= Width(charWidth, s)
  {
    if i == |s| {
      assert s[..i] == s;
    } else {
      var n := |s| - 1;
      assert s[..n][..i] == s[..i];
      NothingMoreKept(charWidth, before, s[..n], i, start, end);
    }
  }

  // ----- the kept characters are a window -----

  /** `out` is the stretch of `v` from `lo` to `hi`, where `lo` is the first index at or
      past the column `start`, and the character at `hi`, if there is one, reaches past
      the column `end` or comes when that column is reached already. */
  predicate Window(charWidth: CharWidth, v: string, out: string, lo: nat, hi: nat, start: nat, end: nat) {
    && lo <= hi <= |v| && out == v[lo..hi]
    && (lo < |v| ==> Width(charWidth, v[..lo]) >= start)
    && (lo > 0 ==> Width(charWidth, v[..lo - 1]) < start)
    && (lo < hi ==> Width(charWidth, v[..hi]) <= end)
    && (hi < |v| ==> Width(charWidth, v[..hi]) >= end || Width(charWidth, v[..hi + 1]) > end)
  }

  lemma WidthSnoc(charWidth: CharWidth, v: string, c: char)
    ensures Width(charWidth, v + [c]) == Width(charWidth, v) + charWidth(c)
  {
    assert (v + [c])[..|v|] == v;
  }

  lemma {:induction false} WidthMonotone(charWidth: CharWidth, v: string, i: nat)
    requires i <= |v|
    ensures Width(charWidth, v[..i]) <= Width(charWidth, v)
  {
    if i == |v| {
      assert v[..i] == v;
    } else {
      assert v[..|v| - 1][..i] == v[..i];
      WidthMonotone(charWidth, v[..|v| - 1], i);
    }
  }

  predicate Open(charWidth: CharWidth, v: string, hi: nat, end: nat) {
    hi < |v| ==> Width(charWidth, v[..hi + 1]) > end
  }

  /** One more character, kept if it lies between the columns. */
  lemma WindowGrows(charWidth: CharWidth, v: string, out: string, lo: nat, hi: nat, start: nat, end: nat, c: char,
                    kept: bool)
    returns (lo': nat, hi': nat)
    requires Window(charWidth, v, out, lo, hi, start, end)
    requires kept ==> Open(charWidth, v, hi, end) && start <= Width(charWidth, v) && Width(charWidth, v + [c]) <= end
    requires !kept ==> Width(charWidth, v) < start || Width(charWidth, v + [c]) > end || Width(charWidth, v) >= end
    ensures Window(charWidth, v + [c], if kept then out + [c] else out, lo', hi', start, end)
    ensures Open(charWidth, v, hi, end) && (kept || Width(charWidth, v) < start || Width(charWidth, v + [c]) > end) ==>
              Open(charWidth, v + [c], hi', end)
  {
    var v' := v + [c];
    hide Width;
    WidthSnoc(charWidth, v, c);
    WidthMonotone(charWidth, v, lo);
    WidthMonotone(charWidth, v, hi);
    assert v[..|v|] == v && v'[..|v|] == v && v'[..|v| + 1] == v';
    assert lo > 0 ==> v'[..lo - 1] == v[..lo - 1];
    assert v'[..lo] == v[..lo] && v'[..hi] == v[..hi];
    if lo == |v| && Width(charWidth, v) < start {
      lo', hi' := lo + 1, lo + 1;
    } else if kept {
      if hi < |v| {
        WidthMonotone(charWidth, v, hi + 1);
      }
      lo', hi' := lo, hi + 1;
    } else {
      lo', hi' := lo, hi;
      assert hi < |v| ==> v'[..hi + 1] == v[..hi + 1];
    }
  }

  lemma KeptNext(charWidth: CharWidth, before: nat, s: string, out: string, start: nat, end: nat)
    requires s != ""
    ensures var n := |s| - 1;
            var kept := out + Kept(charWidth, before, s[..n], start, end);
            out + Kept(charWidth, before, s, start, end) ==
            if start <= before + Width(charWidth, s[..n]) && before + Width(charWidth, s) <= end then kept + [s[n]]
            else kept
  {
    var n := |s| - 1;
    var kept := Kept(charWidth, before, s[..n], start, end);
    assert (out + kept) + [s[n]] == out + (kept + [s[n]]);
    assert out + (kept + "") == out + kept;
  }

  /** A stretch that begins before the column `end`. */
  lemma {:induction false} StretchWindow(charWidth: CharWidth, v: string, out: string, lo: nat, hi: nat, start: nat,
                                         end: nat, s: string)
    returns (lo': nat, hi': nat)
    requires Window(charWidth, v, out, lo, hi, start, end) && Width(charWidth, v) < end
    ensures Window(charWidth, v + s, out + Kept(charWidth, Width(charWidth, v), s, start, end), lo', hi', start, end)
    ensures Open(charWidth, v + s, hi', end)
  {
    if s == "" {
      lo', hi' := lo, hi;
      WidthMonotone(charWidth, v, hi);
      if hi < |v| {
        WidthMonotone(charWidth, v, hi + 1);
      }
      assert v + s == v && out + "" == out;
    } else {
      var n := |s| - 1;
      var kept := Kept(charWidth, Width(charWidth, v), s[..n], start, end);
      lo', hi' := StretchWindow(charWidth, v, out, lo, hi, start, end, s[..n]);
      WidthConcat(charWidth, v, s[..n]);
      WidthConcat(charWidth, v, s);
      assert (v + s[..n]) + [s[n]] == v + s;
      KeptNext(charWidth, Width(charWidth, v), s, out, start, end);
      hide Width, Kept, Window, Open;
      var inside := start <= Width(charWidth, v + s[..n]) && Width(charWidth, v + s) <= end;
      lo', hi' := WindowGrows(charWidth, v + s[..n], out + kept, lo', hi', start, end, s[n], inside);
    }
  }

  /** A stretch that begins at or past the column `end` is left out. */
  lemma {:induction false} SkippedWindow(charWidth: CharWidth, v: string, out: string, lo: nat, hi: nat, start: nat,
                                         end: nat, s: string)
    returns (lo': nat, hi': nat)
    requires Window(charWidth, v, out, lo, hi, start, end) && Width(charWidth, v) >= end
    ensures Window(charWidth, v + s, out, lo', hi', start, end)
  {
    if s == "" {
      lo', hi' := lo, hi;
      assert v + s == v;
    } else {
      var n := |s| - 1;
      lo', hi' := SkippedWindow(charWidth, v, out, lo, hi, start, end, s[..n]);
      WidthConcat(charWidth, v, s[..n]);
      assert (v + s[..n]) + [s[n]] == v + s;
      lo', hi' := WindowGrows(charWidth, v + s[..n], out, lo', hi', start, end, s[n], false);
    }
  }

  /** Truncation keeps a contiguous window of the visible characters: the one that starts
      at the column `start` and runs up to the column `end`. */
  lemma {:induction false} TruncatedWindow(charWidth: CharWidth, text: Text, start: nat, end: nat)
    returns (lo: nat, hi: nat)
    ensures Window(charWidth, Stripped(text), VisibleOf(Truncated(charWidth, text, start, end)), lo, hi, start, end)
  {
    if text == [] {
      lo, hi := 0, 0;
    } else {
      var n := |text| - 1;
      var out, v := Truncated(charWidth, text[..n], start, end), Stripped(text[..n]);
      lo, hi := TruncatedWindow(charWidth, text[..n], start, end);
      if text[n].isAnsi {
        VisibleOfConcat(out, [Code(text[n].text)]);
        assert VisibleOf([Code(text[n].text)]) == "";
        assert v + "" == v && VisibleOf(out) + "" == VisibleOf(out);
      } else if Width(charWidth, v) >= end {
        lo, hi := SkippedWindow(charWidth, v, VisibleOf(out), lo, hi, start, end, text[n].text);
        assert out + [] == out;
      } else {
        var kept := Kept(charWidth, Width(charWidth, v), text[n].text, start, end);
        CharsVisible(kept);
        VisibleOfConcat(out, Chars(kept));
        lo, hi := StretchWindow(charWidth, v, VisibleOf(out), lo, hi, start, end, text[n].text);
      }
    }
  }

  lemma CodePiece(out: seq<Piece>, code: string)
    ensures CodesOf(out + [Code(code)]) == CodesOf(out) + [code]
  {
    assert (out + [Code(code)])[..|out|] == out;
  }

  lemma CharPieces(out: seq<Piece>, s: string)
    ensures CodesOf(out + Chars(s)) == CodesOf(out) && out + [] == out
  {
    CharsVisible(s);
    VisibleOfConcat(out, Chars(s));
    hide Chars;
  }

  /** Every escape sequence survives truncation, in order. */
  lemma {:induction false} TruncatedKeepsCodes(charWidth: CharWidth, text: Text, start: nat, end: nat)
    ensures CodesOf(Truncated(charWidth, text, start, end)) == Codes(text)
  {
    hide CodesOf, Chars, Kept, TextWidth;
    if text == [] {
      NoPieces();
    } else {
      var n := |text| - 1;
      var out := Truncated(charWidth, text[..n], start, end);
      TruncatedKeepsCodes(charWidth, text[..n], start, end);
      CharPieces(out, Kept(charWidth, TextWidth(charWidth, text[..n]), text[n].text, start, end));
      CodePiece(out, text[n].text);
      assert Codes(text[..n]) + [] == Codes(text[..n]);
    }
  }

  lemma NoPieces()
    ensures CodesOf([]) == []
  {
  }

  /** What is kept is no wider than the columns it is cut to. */
  lemma TruncatedFits(charWidth: CharWidth, text: Text, start: nat, end: nat)
    ensures Width(charWidth, VisibleOf(Truncated(charWidth, text, start, end))) <= Room(end, start)
  {
    var v := Stripped(text);
    var lo, hi := TruncatedWindow(charWidth, text, start, end);
    if lo < hi {
      assert v[..hi] == v[..lo] + v[lo..hi];
      WidthConcat(charWidth, v[..lo], v[lo..hi]);
    }
  }

  /** Subtraction that stops at zero. */
  function Room(a: nat, b: nat): nat {
    if a < b then 0 else a - b
  }

  // ----- a test instance within a width -----

  /** A component cut to the room there is: at its end, or at its start. */
  function Cut(charWidth: CharWidth, text: Text, room: nat, atStart: bool): seq<Piece> {
    var w := TextWidth(charWidth, text);
    if w <= room then Pieces(text)
    else if atStart then Truncated(charWidth, text, w - room, w)
    else Truncated(charWidth, text, 0, room)
  }

  /** The four components of a test instance, the most important first. Each gets the room
      that those before it leave; the test name loses its start, the others their end. */
  function Displayed(charWidth: CharWidth, stress: Text, counter: Text, binary: Text, name: Text,
                     maxWidth: Option<nat>): seq<Piece> {
    match maxWidth
    case None => Pieces(stress) + Pieces(counter) + Pieces(binary) + Pieces(name)
    case Some(max) =>
      var used1 := TextWidth(charWidth, stress);
      var used2 := used1 + TextWidth(charWidth, counter);
      var used3 := used2 + TextWidth(charWidth, binary);
      Cut(charWidth, stress, max, false)
      + Cut(charWidth, counter, Room(max, used1), false)
      + Cut(charWidth, binary, Room(max, used2), false)
      + Cut(charWidth, name, Room(max, used3), true)
  }

  /** Resolves the four widths one after the other, then truncates. */
  method DisplayTestInstance(charWidth: CharWidth, stress: Text, counter: Text, binary: Text, name: Text,
                             maxWidth: Option<nat>)
    returns (res: seq<Piece>)
    ensures res == Displayed(charWidth, stress, counter, binary, name, maxWidth)
  {
    if maxWidth.None? {
      return Pieces(stress) + Pieces(counter) + Pieces(binary) + Pieces(name);
    }
    var max := maxWidth.value;
    hide TextWidth, Truncated, Pieces;
    var stressWidth, counterWidth := TextWidth(charWidth, stress), TextWidth(charWidth, counter);
    var binaryWidth, nameWidth := TextWidth(charWidth, binary), TextWidth(charWidth, name);
    var stressResolved, counterResolved, binaryResolved, nameResolved :=
      ResolveWidths(max, stressWidth, counterWidth, binaryWidth, nameWidth);
    var nameShown := TruncateStart(charWidth, name, nameResolved, nameWidth);
    var binaryShown := TruncateEnd(charWidth, binary, binaryResolved, binaryWidth);
    var counterShown := TruncateEnd(charWidth, counter, counterResolved, counterWidth);
    var stressShown := TruncateEnd(charWidth, stress, stressResolved, stressWidth);
    CutToResolved(charWidth, stress, max, false);
    CutToResolved(charWidth, counter, Room(max, stressWidth), false);
    CutToResolved(charWidth, binary, Room(max, stressWidth + counterWidth), false);
    CutToResolved(charWidth, name, Room(max, stressWidth + counterWidth + binaryWidth), true);
    hide Cut;
    res := stressShown + counterShown + binaryShown + nameShown;
  }

  function Min(a: nat, b: nat): nat {
    if a < b then a else b
  }

  lemma CutToResolved(charWidth: CharWidth, text: Text, room: nat, atStart: bool)
    ensures Cut(charWidth, text, Min(TextWidth(charWidth, text), room), atStart) == Cut(charWidth, text, room, atStart)
  {
  }

  /** Each width is reduced to what the ones before it leave. */
  method ResolveWidths(max: nat, stressWidth: nat, counterWidth: nat, binaryWidth: nat, nameWidth: nat)
    returns (stress: nat, counter: nat, binary: nat, name: nat)
    ensures stress == Min(stressWidth, max)
    ensures counter == Min(counterWidth, Room(max, stressWidth))
    ensures binary == Min(binaryWidth, Room(max, stressWidth + counterWidth))
    ensures name == Min(nameWidth, Room(max, stressWidth + counterWidth + binaryWidth))
    ensures stress + counter + binary + name == Min(stressWidth + counterWidth + binaryWidth + nameWidth, max)
  {
    stress, counter, binary, name := stressWidth, counterWidth, binaryWidth, nameWidth;
    if stress > max {
      stress := max;
    }
    var remaining := Room(max, stress);
    if counter > remaining {
      counter := remaining;
    }
    remaining := Room(Room(max, stress), counter);
    if binary > remaining {
      binary := remaining;
    }
    remaining := Room(Room(Room(max, stress), counter), binary);
    if name > remaining {
      name := remaining;
    }
  }

  method TruncateStart(charWidth: CharWidth, text: Text, resolved: nat, width: nat) returns (res: seq<Piece>)
    requires width == TextWidth(charWidth, text) && resolved <= width
    ensures res == Cut(charWidth, text, resolved, true)
  {
    if resolved == width {
      res := Pieces(text);
    } else {
      res := TruncateAnsiAware(charWidth, text, Room(width, resolved), width);
    }
  }

  method TruncateEnd(charWidth: CharWidth, text: Text, resolved: nat, width: nat) returns (res: seq<Piece>)
    requires width == TextWidth(charWidth, text) && resolved <= width
    ensures res == Cut(charWidth, text, resolved, false)
  {
    if resolved == width {
      res := Pieces(text);
    } else {
      res := TruncateAnsiAware(charWidth, text, 0, resolved);
    }
  }

  lemma WindowAtEnd(charWidth: CharWidth, v: string, out: string, lo: nat, hi: nat, start: nat)
    requires Window(charWidth, v, out, lo, hi, start, Width(charWidth, v))
    ensures Width(charWidth, v[..hi]) == Width(charWidth, v)
  {
    WidthMonotone(charWidth, v, hi);
    assert v[..|v|] == v;
    if hi < |v| {
      WidthMonotone(charWidth, v, hi + 1);
    }
    hide Width;
  }

  /** `out` is a stretch of `v` from its start, or one to its end but for characters that
      take no room. */
  predicate KeptFrom(charWidth: CharWidth, v: string, out: string, atStart: bool) {
    exists lo, hi | 0 <= lo <= hi <= |v| ::
      v[lo..hi] == out && if atStart then Width(charWidth, v[..hi]) == Width(charWidth, v) else lo == 0
  }

  lemma KeptFromWindow(charWidth: CharWidth, v: string, out: string, lo: nat, hi: nat, atStart: bool)
    requires lo <= hi <= |v| && out == v[lo..hi]
    requires if atStart then Width(charWidth, v[..hi]) == Width(charWidth, v) else lo == 0
    ensures KeptFrom(charWidth, v, out, atStart)
  {
    assert v[lo..hi] == out;
  }

  /** A component fits the room it is cut to, keeps all its escape sequences, and is left
      alone if it fits. */
  lemma CutComponent(charWidth: CharWidth, text: Text, room: nat, atStart: bool)
    ensures var out := Cut(charWidth, text, room, atStart);
            && Width(charWidth, VisibleOf(out)) <= Min(room, TextWidth(charWidth, text))
            && CodesOf(out) == Codes(text)
            && (TextWidth(charWidth, text) <= room ==> out == Pieces(text) && VisibleOf(out) == Stripped(text))
            && KeptFrom(charWidth, Stripped(text), VisibleOf(out), atStart)
  {
    var w, v := TextWidth(charWidth, text), Stripped(text);
    PiecesAreAll(text);
    hide Pieces, Truncated, VisibleOf, CodesOf, Codes, Stripped, KeptFrom, Width;
    if w <= room {
      assert v[..|v|] == v && v[0..|v|] == v;
      KeptFromWindow(charWidth, v, v, 0, |v|, atStart);
    } else if atStart {
      CutStart(charWidth, text, room);
    } else {
      TruncatedKeepsCodes(charWidth, text, 0, room);
      TruncatedFits(charWidth, text, 0, room);
      var lo, hi := TruncatedWindow(charWidth, text, 0, room);
      KeptFromWindow(charWidth, v, VisibleOf(Truncated(charWidth, text, 0, room)), lo, hi, atStart);
    }
  }

  lemma CutStart(charWidth: CharWidth, text: Text, room: nat)
    requires TextWidth(charWidth, text) > room
    ensures var w := TextWidth(charWidth, text);
            var out := Truncated(charWidth, text, w - room, w);
            && Width(charWidth, VisibleOf(out)) <= room
            && CodesOf(out) == Codes(text)
            && KeptFrom(charWidth, Stripped(text), VisibleOf(out), true)
  {
    var w, v := TextWidth(charWidth, text), Stripped(text);
    var out := VisibleOf(Truncated(charWidth, text, w - room, w));
    TruncatedKeepsCodes(charWidth, text, w - room, w);
    TruncatedFits(charWidth, text, w - room, w);
    var lo, hi := TruncatedWindow(charWidth, text, w - room, w);
    hide Truncated, VisibleOf, CodesOf, Codes, Stripped, KeptFrom, Width;
    WindowAtEnd(charWidth, v, out, lo, hi, w - room);
    KeptFromWindow(charWidth, v, out, lo, hi, true);
  }

  /** The printed test instance never takes more than the maximum width, and no escape
      sequence is lost. */
  lemma DisplayFits(charWidth: CharWidth, stress: Text, counter: Text, binary: Text, name: Text, max: nat)
    ensures var out := Displayed(charWidth, stress, counter, binary, name, Some(max));
            && Width(charWidth, VisibleOf(out)) <= max
            && CodesOf(out) == Codes(stress) + Codes(counter) + Codes(binary) + Codes(name)
  {
    hide Cut, VisibleOf, CodesOf, Codes, TextWidth, Width, KeptFrom, Pieces;
    var used1 := TextWidth(charWidth, stress);
    var used2 := used1 + TextWidth(charWidth, counter);
    var used3 := used2 + TextWidth(charWidth, binary);
    var a, b := Cut(charWidth, stress, max, false), Cut(charWidth, counter, Room(max, used1), false);
    var c, d := Cut(charWidth, binary, Room(max, used2), false), Cut(charWidth, name, Room(max, used3), true);
    CutComponent(charWidth, stress, max, false);
    CutComponent(charWidth, counter, Room(max, used1), false);
    CutComponent(charWidth, binary, Room(max, used2), false);
    CutComponent(charWidth, name, Room(max, used3), true);
    FourConcat(charWidth, a, b, c, d);
  }

  lemma FourConcat(charWidth: CharWidth, a: seq<Piece>, b: seq<Piece>, c: seq<Piece>, d: seq<Piece>)
    ensures CodesOf(a + b + c + d) == CodesOf(a) + CodesOf(b) + CodesOf(c) + CodesOf(d)
    ensures Width(charWidth, VisibleOf(a + b + c + d)) ==
            Width(charWidth, VisibleOf(a)) + Width(charWidth, VisibleOf(b))
            + Width(charWidth, VisibleOf(c)) + Width(charWidth, VisibleOf(d))
  {
    VisibleOfConcat(a, b);
    VisibleOfConcat(a + b, c);
    VisibleOfConcat(a + b + c, d);
    WidthConcat(charWidth, VisibleOf(a), VisibleOf(b));
    WidthConcat(charWidth, VisibleOf(a) + VisibleOf(b), VisibleOf(c));
    WidthConcat(charWidth, VisibleOf(a) + VisibleOf(b) + VisibleOf(c), VisibleOf(d));
  }

  function TotalWidth(charWidth: CharWidth, stress: Text, counter: Text, binary: Text, name: Text): nat {
    TextWidth(charWidth, stress) + TextWidth(charWidth, counter)
    + TextWidth(charWidth, binary) + TextWidth(charWidth, name)
  }

  /** Without a limit, everything is displayed. */
  lemma DisplayedWhole(charWidth: CharWidth, stress: Text, counter: Text, binary: Text, name: Text)
    ensures Width(charWidth, VisibleOf(Displayed(charWidth, stress, counter, binary, name, None)))
            == TotalWidth(charWidth, stress, counter, binary, name)
  {
    hide Pieces, VisibleOf, Width, Stripped;
    PiecesAreAll(stress);
    PiecesAreAll(counter);
    PiecesAreAll(binary);
    PiecesAreAll(name);
    FourConcat(charWidth, Pieces(stress), Pieces(counter), Pieces(binary), Pieces(name));
  }

  /** A limit changes nothing exactly when everything fits in it. */
  lemma DisplayUnchanged(charWidth: CharWidth, stress: Text, counter: Text, binary: Text, name: Text, max: nat)
    ensures Displayed(charWidth, stress, counter, binary, name, Some(max))
            == Displayed(charWidth, stress, counter, binary, name, None)
            <==> TotalWidth(charWidth, stress, counter, binary, name) <= max
  {
    hide TextWidth, Truncated, Pieces, VisibleOf, CodesOf, Codes, Width;
    DisplayFits(charWidth, stress, counter, binary, name, max);
    DisplayedWhole(charWidth, stress, counter, binary, name);
  }
}
