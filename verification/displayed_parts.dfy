/** What is left of a test instance that has to fit a width, component by component. */
module DisplayedParts {
  import opened Wrappers
  import opened Truncation

  /** The start of `v` that fits `room`: the next character would not fit, or nothing is left
      of the room. */
  predicate StartThatFits(charWidth: CharWidth, v: string, out: string, room: nat) {
    && out <= v && Width(charWidth, out) <= room
    && (|out| < |v| ==> Width(charWidth, out) == room || Width(charWidth, v[..|out| + 1]) > room)
  }

  /** The end of `v` that fits `room`: with one more character in front it would not, and after
      it come only characters that take no room. */
  predicate EndThatFits(charWidth: CharWidth, v: string, out: string, room: nat) {
    exists lo, hi | 0 <= lo <= hi <= |v| :: EndAt(charWidth, v, out, room, lo, hi)
  }

  predicate EndAt(charWidth: CharWidth, v: string, out: string, room: nat, lo: nat, hi: nat)
    requires lo <= hi <= |v|
  {
    && out == v[lo..hi] && Width(charWidth, v[hi..]) == 0 && Width(charWidth, out) <= room
    && (lo > 0 ==> Width(charWidth, v[lo - 1..]) > room)
  }

  lemma SplitWidth(charWidth: CharWidth, v: string, i: nat)
    requires i <= |v|
    ensures Width(charWidth, v) == Width(charWidth, v[..i]) + Width(charWidth, v[i..])
  {
    assert v == v[..i] + v[i..];
    WidthConcat(charWidth, v[..i], v[i..]);
  }

  lemma WholeFits(charWidth: CharWidth, v: string, room: nat)
    requires Width(charWidth, v) <= room
    ensures StartThatFits(charWidth, v, v, room) && EndThatFits(charWidth, v, v, room)
  {
    assert v[|v|..] == "" && v[0..|v|] == v;
    assert EndAt(charWidth, v, v, room, 0, |v|);
  }

  lemma WindowFromStart(charWidth: CharWidth, v: string, out: string, lo: nat, hi: nat, room: nat)
    requires Window(charWidth, v, out, lo, hi, 0, room)
    ensures StartThatFits(charWidth, v, out, room)
  {
    assert lo == 0;
    assert out == v[..hi];
  }

  lemma WindowToEnd(charWidth: CharWidth, v: string, out: string, lo: nat, hi: nat, room: nat)
    requires room < Width(charWidth, v)
    requires Window(charWidth, v, out, lo, hi, Width(charWidth, v) - room, Width(charWidth, v))
    ensures EndThatFits(charWidth, v, out, room)
  {
    hide Width;
    var w := Width(charWidth, v);
    WindowAtEnd(charWidth, v, out, lo, hi, w - room);
    SplitWidth(charWidth, v, hi);
    SplitWidth(charWidth, v[..hi], lo);
    assert v[..hi][..lo] == v[..lo] && v[..hi][lo..] == v[lo..hi];
    StretchWidth(charWidth, v, lo, hi, room);
    if lo > 0 {
      SplitWidth(charWidth, v, lo - 1);
    }
    assert EndAt(charWidth, v, out, room, lo, hi);
  }

  lemma StretchWidth(charWidth: CharWidth, v: string, lo: nat, hi: nat, room: nat)
    requires lo <= hi <= |v| && room < Width(charWidth, v)
    requires Width(charWidth, v[..hi]) == Width(charWidth, v)
    requires Width(charWidth, v[..hi]) == Width(charWidth, v[..lo]) + Width(charWidth, v[lo..hi])
    requires lo < |v| ==> Width(charWidth, v[..lo]) >= Width(charWidth, v) - room
    ensures Width(charWidth, v[lo..hi]) <= room
  {
    if lo == |v| {
      assert v[lo..hi] == "";
    }
  }

  /** A component cut to its room keeps as much as fits: of its start, or of its end. */
  lemma CutKeepsMost(charWidth: CharWidth, text: Text, room: nat)
    ensures StartThatFits(charWidth, Stripped(text), VisibleOf(Cut(charWidth, text, room, false)), room)
    ensures EndThatFits(charWidth, Stripped(text), VisibleOf(Cut(charWidth, text, room, true)), room)
  {
    var w, v := TextWidth(charWidth, text), Stripped(text);
    PiecesAreAll(text);
    hide Pieces, Truncated, VisibleOf, Stripped, StartThatFits, EndThatFits, Width, Window;
    if w <= room {
      WholeFits(charWidth, v, room);
    } else {
      var lo, hi := TruncatedWindow(charWidth, text, 0, room);
      WindowFromStart(charWidth, v, VisibleOf(Truncated(charWidth, text, 0, room)), lo, hi, room);
      lo, hi := TruncatedWindow(charWidth, text, w - room, w);
      WindowToEnd(charWidth, v, VisibleOf(Truncated(charWidth, text, w - room, w)), lo, hi, room);
    }
  }

  /** What the components before leave of a maximum. */
  function Left(max: nat, used: nat): nat {
    if used <= max then max - used else 0
  }

  /** The stress index, the counter and the binary id lose their ends, and the test name its
      start; each gets what the full widths of those before it leave, and keeps as much of
      itself as fits. */
  lemma DisplayedInParts(charWidth: CharWidth, stress: Text, counter: Text, binary: Text, name: Text, max: nat)
    returns (a: string, b: string, c: string, d: string)
    ensures VisibleOf(Displayed(charWidth, stress, counter, binary, name, Some(max))) == a + b + c + d
    ensures var w1, w2 := Width(charWidth, Stripped(stress)), Width(charWidth, Stripped(counter));
            var w3 := Width(charWidth, Stripped(binary));
            && StartThatFits(charWidth, Stripped(stress), a, max)
            && StartThatFits(charWidth, Stripped(counter), b, Left(max, w1))
            && StartThatFits(charWidth, Stripped(binary), c, Left(max, w1 + w2))
            && EndThatFits(charWidth, Stripped(name), d, Left(max, w1 + w2 + w3))
  {
    hide Cut, VisibleOf, Stripped, Width, StartThatFits, EndThatFits;
    var w1, w2 := TextWidth(charWidth, stress), TextWidth(charWidth, counter);
    var w3 := TextWidth(charWidth, binary);
    CutKeepsMost(charWidth, stress, max);
    CutKeepsMost(charWidth, counter, Left(max, w1));
    CutKeepsMost(charWidth, binary, Left(max, w1 + w2));
    CutKeepsMost(charWidth, name, Left(max, w1 + w2 + w3));
    var p1, p2 := Cut(charWidth, stress, max, false), Cut(charWidth, counter, Left(max, w1), false);
    var p3 := Cut(charWidth, binary, Left(max, w1 + w2), false);
    var p4 := Cut(charWidth, name, Left(max, w1 + w2 + w3), true);
    FourVisible(p1, p2, p3, p4);
    a, b, c, d := VisibleOf(p1), VisibleOf(p2), VisibleOf(p3), VisibleOf(p4);
  }

  lemma FourVisible(a: seq<Piece>, b: seq<Piece>, c: seq<Piece>, d: seq<Piece>)
    ensures VisibleOf(a + b + c + d) == VisibleOf(a) + VisibleOf(b) + VisibleOf(c) + VisibleOf(d)
  {
    VisibleOfConcat(a, b);
    VisibleOfConcat(a + b, c);
    VisibleOfConcat(a + b + c, d);
  }

  // ----- nothing moves -----

  /** `out` is `all` without some of its characters: its escape sequences are all there, and
      everything is in its place. */
  predicate Thinned(all: seq<Piece>, out: seq<Piece>) {
    if all == [] then out == []
    else
      var init, last := all[..|all| - 1], all[|all| - 1];
      || (out != [] && out[|out| - 1] == last && Thinned(init, out[..|out| - 1]))
      || (last.Visible? && Thinned(init, out))
  }

  lemma {:induction false} ThinnedItself(all: seq<Piece>)
    ensures Thinned(all, all)
  {
    if all != [] {
      ThinnedItself(all[..|all| - 1]);
    }
  }

  lemma {:induction false} ThinnedConcat(a: seq<Piece>, b: seq<Piece>, x: seq<Piece>, y: seq<Piece>)
    requires Thinned(a, x) && Thinned(b, y)
    ensures Thinned(a + b, x + y)
  {
    if b == [] {
      assert a + b == a && x + y == x;
    } else {
      var init := b[..|b| - 1];
      assert (a + b)[..|a + b| - 1] == a + init && (a + b)[|a + b| - 1] == b[|b| - 1];
      if y != [] && y[|y| - 1] == b[|b| - 1] && Thinned(init, y[..|y| - 1]) {
        ThinnedConcat(a, init, x, y[..|y| - 1]);
        assert (x + y)[..|x + y| - 1] == x + y[..|y| - 1];
      } else {
        ThinnedConcat(a, init, x, y);
      }
    }
  }

  lemma {:induction false} NoneThinned(s: string)
    ensures Thinned(Chars(s), [])
  {
    if s != "" {
      NoneThinned(s[..|s| - 1]);
      assert Chars(s)[..|s| - 1] == Chars(s[..|s| - 1]);
    }
  }

  lemma {:induction false} KeptThinned(charWidth: CharWidth, before: nat, s: string, start: nat, end: nat)
    ensures Thinned(Chars(s), Chars(Kept(charWidth, before, s, start, end)))
  {
    if s == "" {
      assert Chars(s) == [];
    } else {
      var n := |s| - 1;
      var kept := Kept(charWidth, before, s[..n], start, end);
      KeptThinned(charWidth, before, s[..n], start, end);
      assert Chars(s)[..n] == Chars(s[..n]);
      assert Chars(kept + [s[n]])[..|kept|] == Chars(kept);
      assert kept + "" == kept;
    }
  }

  lemma {:induction false} TruncatedThinned(charWidth: CharWidth, text: Text, start: nat, end: nat)
    ensures Thinned(Pieces(text), Truncated(charWidth, text, start, end))
  {
    if text != [] {
      var n := |text| - 1;
      var before := TextWidth(charWidth, text[..n]);
      var out := Truncated(charWidth, text[..n], start, end);
      TruncatedThinned(charWidth, text[..n], start, end);
      if text[n].isAnsi {
        ThinnedItself([Code(text[n].text)]);
        ThinnedConcat(Pieces(text[..n]), [Code(text[n].text)], out, [Code(text[n].text)]);
      } else if before >= end {
        NoneThinned(text[n].text);
        ThinnedConcat(Pieces(text[..n]), Chars(text[n].text), out, []);
      } else {
        KeptThinned(charWidth, before, text[n].text, start, end);
        ThinnedConcat(Pieces(text[..n]), Chars(text[n].text), out,
          Chars(Kept(charWidth, before, text[n].text, start, end)));
      }
    }
  }

  lemma CutThinned(charWidth: CharWidth, text: Text, room: nat, atStart: bool)
    ensures Thinned(Pieces(text), Cut(charWidth, text, room, atStart))
  {
    hide Thinned, Pieces, Truncated, TextWidth;
    var w := TextWidth(charWidth, text);
    ThinnedItself(Pieces(text));
    if w > room {
      TruncatedThinned(charWidth, text, 0, room);
      TruncatedThinned(charWidth, text, w - room, w);
    }
  }

  /** Fitting a width removes characters and does nothing else: every escape sequence stays
      where it is among what is left. */
  lemma DisplayedThinned(charWidth: CharWidth, stress: Text, counter: Text, binary: Text, name: Text, max: nat)
    ensures Thinned(Displayed(charWidth, stress, counter, binary, name, None),
                    Displayed(charWidth, stress, counter, binary, name, Some(max)))
  {
    hide Thinned, Pieces, Cut, TextWidth;
    var w1, w2, w3 := TextWidth(charWidth, stress), TextWidth(charWidth, counter), TextWidth(charWidth, binary);
    var a, b := Cut(charWidth, stress, max, false), Cut(charWidth, counter, Room(max, w1), false);
    var c, d := Cut(charWidth, binary, Room(max, w1 + w2), false), Cut(charWidth, name, Room(max, w1 + w2 + w3), true);
    CutThinned(charWidth, stress, max, false);
    CutThinned(charWidth, counter, Room(max, w1), false);
    CutThinned(charWidth, binary, Room(max, w1 + w2), false);
    CutThinned(charWidth, name, Room(max, w1 + w2 + w3), true);
    ThinnedConcat(Pieces(stress), Pieces(counter), a, b);
    ThinnedConcat(Pieces(stress) + Pieces(counter), Pieces(binary), a + b, c);
    ThinnedConcat(Pieces(stress) + Pieces(counter) + Pieces(binary), Pieces(name), a + b + c, d);
  }
}
