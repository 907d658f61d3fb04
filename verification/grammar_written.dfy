/** Everything that is read without an error is something the grammar allows. */
module GrammarWritten {
  import opened Wrappers
  import opened CharClasses
  import opened FiltersetSyntax
  import opened ParserState
  import opened MatcherText
  import P = FiltersetParser
  import opened G = FiltersetGrammar
  import GR = GrammarReads

  /** Errors only grow: those in between are the same if those at both ends are. */
  lemma Silent(a: St, b: St, c: St)
    requires Follows(a, b) && Follows(b, c) && c.errs == a.errs
    ensures b.errs == a.errs
  {
    assert |a.errs| == |b.errs|;
  }

  // ----- blanks -----

  lemma {:induction false} BlanksWritten(st: St) returns (g: string)
    ensures IsBlanks(g) && st.rest == g + SkipBlanks(st).rest && !StartsBlank(SkipBlanks(st).rest)
    ensures SkipBlanks(st) == St(st.off + |g|, SkipBlanks(st).rest, st.errs)
    decreases |st.rest|
  {
    hide IsBlanks, StartsBlank, Follows;
    var n := BlankLength(st.rest);
    NothingBlank(st.rest);
    if n == 0 {
      g := "";
      assert g + st.rest == st.rest;
    } else {
      var g1 := BlanksWritten(st.Advance(n));
      OneBlank(st.rest);
      BlankAnd(st.rest[..n], g1);
      g := st.rest[..n] + g1;
      Rejoin(st.rest, n, g1, SkipBlanks(st).rest);
    }
  }

  lemma Rejoin(s: string, n: nat, x: string, y: string)
    requires n <= |s| && s[n..] == x + y
    ensures s == (s[..n] + x) + y
  {
    assert s == s[..n] + s[n..];
  }

  lemma NothingBlank(s: string)
    ensures IsBlanks("") && (BlankLength(s) == 0 ==> !StartsBlank(s))
  {
  }

  lemma OneBlank(s: string)
    requires BlankLength(s) > 0
    ensures var b := s[..BlankLength(s)]; b == " " || b == "\n" || b == "\r\n"
  {
  }

  lemma BlankAnd(b: string, g: string)
    requires b == " " || b == "\n" || b == "\r\n"
    requires IsBlanks(g)
    ensures IsBlanks(b + g)
  {
    assert (b + g)[|b|..] == g;
  }

  lemma CharWritten(st: St, c: char, kind: ErrorKind) returns (g: string)
    requires c == '(' || c == ')'
    requires P.ExpectChar(st, c, kind).errs == st.errs
    ensures IsBlanks(g) && st.rest == g + ([c] + P.ExpectChar(st, c, kind).rest)
    ensures P.ExpectChar(st, c, kind).off == st.off + |g| + 1
  {
    g := BlanksWritten(st);
    var st1 := SkipBlanks(st);
    hide SkipBlanks, IsBlanks, StartsBlank;
    if st1.rest != "" && st1.rest[0] == c {
      assert st1.rest == [c] + st1.rest[1..];
    } else {
      assert false;
    }
  }

  // ----- strings -----

  lemma {:induction false} DigitsWritten(digits: string)
    requires forall c <- digits :: IsHexDigit(c)
    ensures Denotes(digits, HexValue(digits))
  {
    if digits != "" {
      var init, c := digits[..|digits| - 1], digits[|digits| - 1];
      DigitsWritten(init);
      GR.DigitValue(c, HexDigitValue(c));
      var n := HexValue(init) * 16 + HexDigitValue(c);
      assert HexValue(digits) == n && n / 16 == HexValue(init) && n % 16 == HexDigitValue(c);
    }
  }

  lemma NumberWritten(s: string, c: char, n: nat)
    requires UnicodeEscape(s) == Some((c, n))
    ensures n <= |s| && WritesNumber("\\" + s[..n], c)
  {
    var k := HexRun(s[2..], 6);
    var digits := s[2..][..k];
    var piece := "\\" + s[..n];
    DigitsWritten(digits);
    assert piece[3..|piece| - 1] == digits;
    assert piece[..3] == "\\u{";
    hide Denotes, HexValue, HexRun;
  }

  lemma EscapeWritten(s: string, c: char, n: nat)
    requires Escape(s) == Some((c, n))
    ensures n <= |s| && Writes("\\" + s[..n], c)
  {
    if UnicodeEscape(s).Some? {
      NumberWritten(s, c, n);
    } else {
      assert "\\" + s[..1] == ['\\', s[0]];
    }
    hide WritesNumber;
  }

  lemma WritesAnd(piece: string, c: char, raw: string, v: string)
    requires piece != "" && Writes(piece, c) && WritesText(raw, v)
    ensures WritesText(piece + raw, [c] + v)
  {
    assert (piece + raw)[..|piece|] == piece && (piece + raw)[|piece|..] == raw;
    assert ([c] + v)[1..] == v;
    hide Writes;
  }

  /** One character of a string, and the stream behind it. */
  lemma PieceWritten(st: St, acc: string) returns (piece: string, c: char, next: St)
    requires !EndsText(st.rest) && ReadText(st, Some(acc)).0.errs == st.errs
    ensures piece != "" && Writes(piece, c) && st.rest == piece + next.rest
    ensures next.off == st.off + |piece| && next.errs == st.errs
    ensures ReadText(st, Some(acc)) == ReadText(next, Some(acc + [c]))
  {
    hide Escape, Writes;
    if st.rest[0] != '\\' {
      piece, c, next := [st.rest[0]], st.rest[0], st.Advance(1);
      PlainWritten(c);
    } else {
      var after := st.Advance(1);
      if Escape(after.rest).None? {
        BadIsReported(st);
        assert false;
      }
      var n := Escape(after.rest).value.1;
      c := Escape(after.rest).value.0;
      piece, next := "\\" + after.rest[..n], after.Advance(n);
      EscapeWritten(after.rest, c, n);
    }
  }

  lemma BadIsReported(st: St)
    requires st.rest != "" && st.rest[0] == '\\' && Escape(st.rest[1..]).None?
    ensures forall acc :: |ReadText(st, acc).0.errs| > |st.errs|
  {
  }

  lemma {:induction false} TextWritten(st: St, acc: string) returns (raw: string, v: string)
    requires ReadText(st, Some(acc)).0.errs == st.errs
    ensures ReadText(st, Some(acc)).1 == Some(acc + v) && WritesText(raw, v)
    ensures st.rest == raw + ReadText(st, Some(acc)).0.rest && ReadText(st, Some(acc)).0.off == st.off + |raw|
    decreases |st.rest|
  {
    hide ReadText, Writes, WritesText, Follows;
    if EndsText(st.rest) {
      raw, v := "", "";
      GR.EndReads(st, Some(acc));
      NothingWrites();
      assert acc + v == acc && raw + st.rest == st.rest;
    } else {
      var piece, c, next := PieceWritten(st, acc);
      var raw1, v1 := TextWritten(next, acc + [c]);
      raw, v := piece + raw1, [c] + v1;
      WritesAnd(piece, c, raw1, v1);
      assert acc + [c] + v1 == acc + v;
      assert st.rest == piece + raw1 + ReadText(st, Some(acc)).0.rest;
    }
  }

  lemma NothingWrites()
    ensures WritesText("", "")
  {
  }

  lemma PlainWritten(c: char)
    requires c != '\\' && c != ')' && c != ','
    ensures Writes([c], c)
  {
  }

  lemma ArgumentTextWritten(st: St) returns (raw: string, v: string)
    requires P.ParseText(st).0.errs == st.errs
    ensures var (st1, r) := P.ParseText(st);
            && r == Some(v) && v != "" && WritesText(raw, v)
            && st.rest == raw + st1.rest && st1.off == st.off + |raw| && EndsText(st1.rest)
  {
    hide ReadText, WritesText, EndsText;
    var (st1, text) := ReadText(st, Some(""));
    if text == Some("") {
      assert false;
    }
    raw, v := TextWritten(st, "");
    assert "" + v == v;
  }

  lemma {:induction false} RegexWritten(s: string)
    requires ReadRegex(s).1 < |s|
    ensures WritesRegex(s[..ReadRegex(s).1], ReadRegex(s).0)
    decreases |s|
  {
    var (r, n) := ReadRegex(s);
    if s != "" && s[0] != '/' {
      var k := if IsEscapedSlash(s) then 2 else 1;
      RegexWritten(s[k..]);
      assert s[..n][k..] == s[k..][..n - k];
      assert r[1..] == ReadRegex(s[k..]).0;
    }
  }

  // ----- arguments -----

  lemma RegexMatcherWritten(lib: Lib, st: St) returns (raw: string, r: string)
    requires P.ParseRegex(lib, st).0.errs == st.errs
    ensures var (st1, m) := P.ParseRegex(lib, st);
            && m == Some(Regex(r)) && WritesRegex(raw, r) && lib.validRegex(r)
            && st.rest == raw + ("/" + st1.rest) && st1.off == st.off + |raw| + 1
  {
    hide ReadRegex, WritesRegex, TakeTill;
    var (text, n) := ReadRegex(st.rest);
    if n == |st.rest| {
      var st1 := TakeTill(st, ')');
      assert false;
    }
    RegexWritten(st.rest);
    var st1 := st.Advance(n);
    if !lib.validRegex(text) {
      assert false;
    }
    raw, r := st.rest[..n], text;
    SlashSkipped(st1);
    assert st1.rest == "/" + st1.rest[1..];
  }

  lemma SlashSkipped(st: St)
    requires st.rest != "" && st.rest[0] == '/'
    ensures P.SkipSlash(st) == st.Advance(1)
  {
  }

  /** A matcher with an operator of its own, whose argument starts at `st`. */
  lemma ExplicitWritten(lib: Lib, c: char, st: St) returns (m: NameMatcher, raw: string, st1: St)
    requires c == '=' || c == '~' || c == '#'
    requires (if c == '=' then P.ParseEqual(st, false) else if c == '~' then P.ParseContains(st, false)
              else P.ParseGlob(lib, st, false)).0.errs == st.errs
    ensures (if c == '=' then P.ParseEqual(st, false) else if c == '~' then P.ParseContains(st, false)
             else P.ParseGlob(lib, st, false)) == (st1, Some(m))
    ensures forall p :: MatcherFits(lib, p, m, raw, "")
    ensures forall p :: Argument(Matching(p, m, NO_SPAN), raw) == [c] + raw
    ensures st.rest == raw + st1.rest && st1.off == st.off + |raw| && EndsText(st1.rest)
  {
    hide P.ParseText, WritesText, EndsText;
    var v;
    raw, v := ArgumentTextWritten(st);
    st1 := P.ParseText(st).0;
    m := if c == '=' then Equal(v, false) else if c == '~' then Contains(v, false) else Glob(v, false);
  }

  lemma ImplicitWritten(lib: Lib, p: Predicate, st: St) returns (m: NameMatcher, raw: string, st1: St)
    requires !StartsBlank(st.rest)
    requires st.rest != "" ==> st.rest[0] != '/' && st.rest[0] != '#' && st.rest[0] != '=' && st.rest[0] != '~'
    requires P.ParseDefaultMatcher(lib, DefaultFor(p), st).0.errs == st.errs
    ensures P.ParseDefaultMatcher(lib, DefaultFor(p), st) == (st1, Some(m))
    ensures MatcherFits(lib, p, m, raw, "") && Argument(Matching(p, m, NO_SPAN), raw) == raw
    ensures st.rest == raw + st1.rest && st1.off == st.off + |raw| && EndsText(st1.rest)
  {
    hide P.ParseText, WritesText, EndsText, StartsBlank;
    var v;
    raw, v := ArgumentTextWritten(st);
    st1 := P.ParseText(st).0;
    m := if p.Kind? then Equal(v, true) else if p.Test? then Contains(v, true) else Glob(v, true);
    RawNotEmpty(raw, v);
    NotBlank(raw, st1.rest);
    assert st.rest[0] == raw[0];
  }

  lemma RawNotEmpty(raw: string, v: string)
    requires WritesText(raw, v) && v != ""
    ensures raw != ""
  {
    hide Writes;
  }

  lemma NotBlank(raw: string, x: string)
    requires !StartsBlank(raw + x)
    ensures !StartsBlank(raw)
  {
  }

  /** An argument: the blanks in front of it, what is written, and what it stands for. */
  lemma MatcherWritten(lib: Lib, p: Predicate, st: St)
    returns (lead: string, m: NameMatcher, raw: string, st1: St)
    requires P.SetMatcher(lib, DefaultFor(p), st).0.errs == st.errs
    ensures P.SetMatcher(lib, DefaultFor(p), st) == (st1, Some(m))
    ensures IsBlanks(lead) && MatcherFits(lib, p, m, raw, "") && (!m.Regex? ==> EndsText(st1.rest))
    ensures st.rest == lead + (Argument(Matching(p, m, NO_SPAN), raw) + st1.rest)
    ensures st1.off == st.off + |lead| + |Argument(Matching(p, m, NO_SPAN), raw)|
  {
    hide SkipBlanks, P.ParseRegex, P.ParseGlob, P.ParseEqual, P.ParseContains, P.ParseDefaultMatcher, MatcherFits,
         IsBlanks, StartsBlank, EndsText;
    lead := BlanksWritten(st);
    var st2 := SkipBlanks(st);
    if st2.rest != "" && st2.rest[0] == '/' {
      var r;
      assert st2.rest == "/" + st2.rest[1..];
      raw, r := RegexMatcherWritten(lib, st2.Advance(1));
      st1 := P.ParseRegex(lib, st2.Advance(1)).0;
      m := Regex(r);
      RegexFits(lib, p, raw, r);
      assert st2.rest == ("/" + (raw + "/")) + st1.rest;
    } else if st2.rest != "" && (st2.rest[0] == '#' || st2.rest[0] == '=' || st2.rest[0] == '~') {
      assert st2.rest == [st2.rest[0]] + st2.rest[1..];
      m, raw, st1 := ExplicitWritten(lib, st2.rest[0], st2.Advance(1));
      assert st2.rest == ([st2.rest[0]] + raw) + st1.rest;
    } else {
      m, raw, st1 := ImplicitWritten(lib, p, st2);
    }
  }

  lemma RegexFits(lib: Lib, p: Predicate, raw: string, r: string)
    requires WritesRegex(raw, r) && lib.validRegex(r)
    ensures MatcherFits(lib, p, Regex(r), raw, "")
  {
  }

  // ----- sets -----

  lemma NoCommaWritten(st: St)
    requires P.RecoverComma(st).errs == st.errs
    ensures P.RecoverComma(st) == st && (SkipBlanks(st).rest != "" ==> SkipBlanks(st).rest[0] != ',')
  {
    hide SkipBlanks, TakeTill;
    var st1 := SkipBlanks(st);
    if st1.rest != "" && st1.rest[0] == ',' {
      assert false;
    }
  }

  /** What stands between an argument and its parenthesis. */
  lemma TailWritten(st: St) returns (tail: string, st1: St)
    requires P.RecoverComma(st).errs == st.errs
    requires P.ExpectChar(P.RecoverComma(st), ')', ExpectedCloseParenthesis).errs == st.errs
    ensures P.RecoverComma(st) == st && P.ExpectChar(st, ')', ExpectedCloseParenthesis) == st1
    ensures IsBlanks(tail) && st.rest == tail + (")" + st1.rest) && st1.off == st.off + |tail| + 1
    ensures EndsText(st.rest) ==> tail == ""
  {
    NoCommaWritten(st);
    tail := CharWritten(st, ')', ExpectedCloseParenthesis);
    st1 := P.ExpectChar(st, ')', ExpectedCloseParenthesis);
  }

  lemma UnaryWritten(lib: Lib, p: Predicate, st: St)
    returns (gap: string, lead: string, m: NameMatcher, raw: string, tail: string, span: Span)
    requires P.ParseUnary(lib, p, st).0.errs == st.errs
    ensures IsBlanks(gap) && LeafFits(lib, Matching(p, m, NO_SPAN), lead, raw, tail)
    ensures st.rest == GR.Behind(Matching(p, m, NO_SPAN), gap, lead, raw, tail, P.ParseUnary(lib, p, st).0.rest)
    ensures P.ParseUnary(lib, p, st).1 == Some(Matching(p, m, span))
    ensures span.offset == st.off + |gap| + 1 && span.length == |lead| + |Argument(Matching(p, m, NO_SPAN), raw)|
  {
    hide P.ExpectChar, P.SetMatcher, P.RecoverComma, IsBlanks, MatcherFits, EndsText, Argument;
    var st2 := P.ExpectChar(st, '(', ExpectedOpenParenthesis);
    var st3 := P.SetMatcher(lib, DefaultFor(p), st2).0;
    var st4 := P.RecoverComma(st3);
    var st5 := P.ExpectChar(st4, ')', ExpectedCloseParenthesis);
    Silents(st, st2, st3, st4, st5);
    gap := CharWritten(st, '(', ExpectedOpenParenthesis);
    var s3, s5;
    lead, m, raw, s3 := MatcherWritten(lib, p, st2);
    tail, s5 := TailWritten(st3);
    span := Span(st2.off, st3.off - st2.off);
    TailFits(lib, p, m, raw, tail, st3.rest);
  }

  lemma TailFits(lib: Lib, p: Predicate, m: NameMatcher, raw: string, tail: string, x: string)
    requires MatcherFits(lib, p, m, raw, "") && (!m.Regex? ==> EndsText(x)) && (EndsText(x) ==> tail == "")
    ensures MatcherFits(lib, p, m, raw, tail)
  {
  }

  lemma Silents(a: St, b: St, c: St, d: St, e: St)
    requires Follows(a, b) && Follows(b, c) && Follows(c, d) && Follows(d, e) && e.errs == a.errs
    ensures b.errs == c.errs == d.errs == a.errs
  {
    assert |a.errs| == |b.errs| == |c.errs| == |d.errs|;
  }

  lemma {:induction false} TrimPads(s: string)
    ensures Padded(s, P.Trim(s))
    decreases |s|
  {
    if s == "" {
      assert PadsAt(s, "", 0);
    } else if IsWhitespace(s[0]) {
      var word := P.Trim(s[1..]);
      TrimPads(s[1..]);
      PadLeft(s, word);
    } else if IsWhitespace(s[|s| - 1]) {
      var word := P.Trim(s[..|s| - 1]);
      TrimPads(s[..|s| - 1]);
      PadRight(s, word);
    } else {
      assert s[0..|s|] == s;
      assert PadsAt(s, s, 0);
    }
  }

  lemma PadLeft(s: string, word: string)
    requires s != "" && IsWhitespace(s[0]) && Padded(s[1..], word)
    ensures Padded(s, word)
  {
    hide IsWhitespace;
    var i :| PadsAt(s[1..], word, i);
    assert PadsAt(s[1..], word, i);
    assert s[..i + 1] == [s[0]] + s[1..][..i];
    assert s[i + 1..i + 1 + |word|] == s[1..][i..i + |word|] && s[i + 1 + |word|..] == s[1..][i + |word|..];
    assert PadsAt(s, word, i + 1);
  }

  lemma PadRight(s: string, word: string)
    requires s != "" && IsWhitespace(s[|s| - 1]) && Padded(s[..|s| - 1], word)
    ensures Padded(s, word)
  {
    hide IsWhitespace;
    var n := |s| - 1;
    var i :| PadsAt(s[..n], word, i);
    assert PadsAt(s[..n], word, i);
    assert s[i + |word|..] == s[..n][i + |word|..] + [s[n]];
    assert s[i..i + |word|] == s[..n][i..i + |word|] && s[..i] == s[..n][..i];
    assert PadsAt(s, word, i);
  }

  lemma PlatformWritten(lib: Lib, st: St)
    returns (gap: string, lead: string, p: Platform, raw: string, span: Span)
    requires P.ParsePlatform(st).0.errs == st.errs
    ensures IsBlanks(gap) && LeafFits(lib, PlatformIs(p, NO_SPAN), lead, raw, "")
    ensures st.rest == GR.Behind(PlatformIs(p, NO_SPAN), gap, lead, raw, "", P.ParsePlatform(st).0.rest)
    ensures P.ParsePlatform(st).1 == Some(PlatformIs(p, span))
    ensures span.offset == st.off + |gap| + 1 && span.length == |lead| + |raw|
  {
    hide P.ExpectChar, P.RecoverComma, P.ParseText, P.Trim, SkipBlanks, IsBlanks, StartsBlank, WritesText, Padded,
         EndsText;
    var st2 := P.ExpectChar(st, '(', ExpectedOpenParenthesis);
    var (st3, text) := P.ParseText(SkipBlanks(st2));
    var st4 := P.RecoverComma(st3);
    var st5 := P.ExpectChar(st4, ')', ExpectedCloseParenthesis);
    Silents(st, st2, st3, st4, st5);
    gap := CharWritten(st, '(', ExpectedOpenParenthesis);
    lead := BlanksWritten(st2);
    var v;
    raw, v := ArgumentTextWritten(SkipBlanks(st2));
    var tail, s5 := TailWritten(st3);
    p := if P.Trim(v) == PlatformText(Host) then Host else Target;
    TrimPads(v);
    RawNotEmpty(raw, v);
    NotBlank(raw, st3.rest);
    span := Span(st2.off, st3.off - st2.off);
    NoTail(lead, raw, s5.rest);
  }

  lemma NoTail(lead: string, raw: string, t: string)
    ensures lead + (raw + ("" + (")" + t))) == lead + (raw + (")" + t))
    ensures "" + (")" + t) == ")" + t && IsBlanks("")
  {
    GR.EmptyTail(lead, raw, t);
  }

  lemma {:induction false} TakenTill(st: St, c: char) returns (x: string)
    ensures st.rest == x + TakeTill(st, c).rest && TakeTill(st, c).off == st.off + |x|
    ensures x == st.rest[..|st.rest| - |TakeTill(st, c).rest|]
    decreases |st.rest|
  {
    hide Follows;
    var st1 := TakeTill(st, c);
    if st.rest != "" && st.rest[0] != c {
      var y := TakenTill(st.Advance(1), c);
      Rejoin(st.rest, 1, y, st1.rest);
      x := st.rest[..1] + y;
    } else {
      x := "";
      assert "" + st.rest == st.rest;
    }
    assert (x + st1.rest)[..|x|] == x;
  }

  lemma PaddedNothing(s: string)
    requires Padded(s, "")
    ensures AllWhitespace(s)
  {
    var i :| PadsAt(s, "", i);
    assert PadsAt(s, "", i);
    assert s == s[..i] + s[i..];
    hide IsWhitespace;
  }

  lemma NullaryWritten(n: P.SetName, start: nat, st: St) returns (gap: string, raw: string, st1: St, l: ParsedLeaf)
    requires start <= st.off && P.ParseNullary(n, start, st).0.errs == st.errs
    requires n.DefaultName? || n.AllName? || n.NoneName?
    ensures P.ParseNullary(n, start, st) == (st1, Some(l)) && start <= st1.off
    ensures l == if n.DefaultName? then Default(Span(start, st1.off - start)) else if n.AllName? then All else Nothing
    ensures IsBlanks(gap) && AllWhitespace(raw)
    ensures st.rest == gap + ("(" + (raw + (")" + st1.rest))) && st1.off == st.off + |gap| + |raw| + 2
  {
    hide P.ExpectChar, TakeTill, P.Trim, IsBlanks, AllWhitespace, Padded;
    var st2 := P.ExpectChar(st, '(', ExpectedOpenParenthesis);
    var st3 := TakeTill(st2, ')');
    raw := TakenTill(st2, ')');
    var st4 := if P.Trim(raw) != "" then st3.Report(UnexpectedArgument, Span(st2.off, |raw|)) else st3;
    st1 := P.ExpectChar(st4, ')', ExpectedCloseParenthesis);
    Silents(st, st2, st3, st4, st1);
    gap := CharWritten(st, '(', ExpectedOpenParenthesis);
    TrimPads(raw);
    PaddedNothing(raw);
    ClosesHere(st4);
    l := if n.DefaultName? then Default(Span(start, st1.off - start)) else if n.AllName? then All else Nothing;
  }

  lemma ClosesHere(st: St)
    requires P.ExpectChar(st, ')', ExpectedCloseParenthesis).errs == st.errs
    requires st.rest == "" || st.rest[0] == ')'
    ensures st.rest == ")" + P.ExpectChar(st, ')', ExpectedCloseParenthesis).rest
    ensures P.ExpectChar(st, ')', ExpectedCloseParenthesis).off == st.off + 1
  {
    assert SkipBlanks(st) == st;
    hide SkipBlanks;
  }

  /** The set named `n`, whose name ends at `st` and starts at `start`. */
  lemma ArgumentWritten(lib: Lib, n: P.SetName, start: nat, st: St)
    returns (l: ParsedLeaf, gap: string, lead: string, raw: string, tail: string)
    requires start + |P.SetKeyword(n)| == st.off && P.ParseArgument(lib, n, start, st).0.errs == st.errs
    ensures Name(l) == P.SetKeyword(n) && IsBlanks(gap) && LeafFits(lib, l, lead, raw, tail)
    ensures st.rest == GR.Behind(l, gap, lead, raw, tail, P.ParseArgument(lib, n, start, st).0.rest)
    ensures P.ParseArgument(lib, n, start, st).1 == Some(G.Placed(l, start, gap, lead, raw))
  {
    hide P.ParseUnary, P.ParsePlatform, P.ParseNullary, IsBlanks, AllWhitespace, MatcherFits, Argument, StartsBlank,
         WritesText, Padded, Follows;
    var span;
    match n
    case Takes(p) =>
      var m;
      gap, lead, m, raw, tail, span := UnaryWritten(lib, p, st);
      l := Matching(p, m, NO_SPAN);
    case PlatformName =>
      var p;
      gap, lead, p, raw, span := PlatformWritten(lib, st);
      l, tail := PlatformIs(p, NO_SPAN), "";
      PlainArgument(l, raw);
    case _ =>
      var st1;
      gap, raw, st1, l := NullaryWritten(n, start, st);
      lead, tail := "", "";
      NullaryShape(gap, raw, st1.rest);
      PlainArgument(l, raw);
  }

  lemma PlainArgument(l: ParsedLeaf, raw: string)
    requires !l.Matching?
    ensures Argument(l, raw) == raw
  {
  }

  lemma NullaryShape(gap: string, raw: string, t: string)
    ensures gap + ("(" + ("" + (raw + ("" + (")" + t))))) == gap + ("(" + (raw + (")" + t)))
    ensures IsBlanks("")
  {
    GR.EmptyTail("", raw, t);
  }

  lemma LeafWritten(lib: Lib, n: P.SetName, st: St)
    returns (l: ParsedLeaf, gap: string, lead: string, raw: string, tail: string)
    requires P.SetKeyword(n) <= st.rest && P.ParseSet(lib, n, st).0.errs == st.errs
    ensures IsBlanks(gap) && LeafFits(lib, l, lead, raw, tail)
    ensures st.rest == LeafText(l, gap, lead, raw, tail) + P.ParseSet(lib, n, st).0.rest
    ensures P.ParseSet(lib, n, st).1 == Some(G.Placed(l, st.off, gap, lead, raw))
  {
    hide P.ParseArgument, P.SetKeyword, IsBlanks, LeafFits, LeafText, Name, GR.Behind, G.Placed, Follows;
    var k := |P.SetKeyword(n)|;
    l, gap, lead, raw, tail := ArgumentWritten(lib, n, st.off, st.Advance(k));
    GR.LeafShape(l, gap, lead, raw, tail, P.ParseSet(lib, n, st).0.rest);
    assert st.rest == P.SetKeyword(n) + st.rest[k..];
  }

  // ----- expressions -----

  /** What a script makes of the stream: all of its text is read, and it stands for `e`. */
  ghost predicate Makes(lib: Lib, s: Script, st: St, st1: St, e: P.ExprResult) {
    Correct(lib, s) && st.rest == Text(s) + st1.rest && e == P.Valid(Tree(s, st.off))
  }

  lemma TextBefore(before: string, x: string, y: string)
    ensures before + (x + y) == (before + x) + y
  {
  }

  lemma SetWritten(lib: Lib, n: P.SetName, st: St) returns (s: Script)
    requires P.FirstName(SkipBlanks(st).rest, P.SET_NAMES) == Some(n)
    requires P.ParseBasic(lib, st).Ok? && P.ParseBasic(lib, st).st.errs == st.errs
    ensures Makes(lib, s, st, P.ParseBasic(lib, st).st, P.ParseBasic(lib, st).value) && !s.Joined?
  {
    hide P.ParseSet, P.FirstName, P.SetKeyword, SkipBlanks, IsBlanks, StartsBlank, LeafFits, LeafText, G.Placed,
         Follows;
    var before := BlanksWritten(st);
    var st1 := SkipBlanks(st);
    var l, gap, lead, raw, tail := LeafWritten(lib, n, st1);
    s := Leaf(before, l, gap, lead, raw, tail);
    TextBefore(before, LeafText(l, gap, lead, raw, tail), P.ParseSet(lib, n, st1).0.rest);
  }

  /** A word operator is not followed by a word character. */
  lemma WordWritten(word: string, s: string)
    requires P.WordNext(word, s)
    ensures s == word + s[|word|..] && WordEnds(s[|word|..])
  {
  }

  lemma WordEndsFirst(x: string, y: string)
    requires WordEnds(x + y)
    ensures WordEnds(x)
  {
  }

  lemma SignWritten(op: NotOperator, s: string)
    requires P.NextNot(s) == Some(op)
    ensures |NotText(op)| <= |s| && s == NotSign(op) + s[|NotText(op)|..] && NotText(op) == NotSign(op)
    ensures op == LiteralNot ==> WordEnds(s[|NotText(op)|..])
  {
    if op == LiteralNot {
      WordWritten("not", s);
    }
    hide WordEnds, P.WordNext;
  }

  lemma NegatedMakes(lib: Lib, st: St, before: string, op: NotOperator, a: Script, st1: St, st2: St, e: ParsedExpr)
    requires IsBlanks(before) && st.rest == before + (NotSign(op) + st1.rest)
    requires st1.off == st.off + |before| + |NotSign(op)| && (op == LiteralNot ==> WordEnds(st1.rest))
    requires !a.Joined? && Makes(lib, a, st1, st2, P.Valid(e))
    ensures Makes(lib, Negated(before, op, a), st, st2, P.Valid(Not(op, e)))
  {
    hide IsBlanks, NotSign, WordEnds;
    var s := Negated(before, op, a);
    if op == LiteralNot {
      WordEndsFirst(Text(a), st2.rest);
    }
    GR.TextAnd(s, st2.rest);
  }

  lemma EnclosedMakes(lib: Lib, st: St, before: string, a: Script, st1: St, st2: St, after: string, t: string,
                      e: ParsedExpr, st3: St)
    requires IsBlanks(before) && IsBlanks(after) && st.rest == before + ("(" + st1.rest)
    requires st1.off == st.off + |before| + 1 && Makes(lib, a, st1, st2, P.Valid(e))
    requires st2.rest == after + (")" + st3.rest)
    ensures Makes(lib, Enclosed(before, a, after), st, st3, P.Valid(Parens(e)))
  {
    hide IsBlanks;
    GR.TextAnd(Enclosed(before, a, after), st3.rest);
  }

  lemma {:induction false} BasicWritten(lib: Lib, st: St) returns (s: Script)
    requires P.ParseBasic(lib, st).Ok? && P.ParseBasic(lib, st).st.errs == st.errs
    ensures Makes(lib, s, st, P.ParseBasic(lib, st).st, P.ParseBasic(lib, st).value) && !s.Joined?
    decreases |st.rest|, 0
  {
    hide SkipBlanks, P.FirstName, P.SetKeyword, P.ParseSet, P.NextNot, P.NextMisplaced, P.ExpectChar, IsBlanks,
         StartsBlank, Makes, NotSign;
    var before := BlanksWritten(st);
    var st1 := SkipBlanks(st);
    match P.FirstName(st1.rest, P.SET_NAMES)
    case Some(n) => s := SetWritten(lib, n, st);
    case None =>
      match P.NextNot(st1.rest)
      case Some(op) =>
        s := NotWritten(lib, op, st, before);
      case None =>
        if "(" <= st1.rest {
          s := ParensWritten(lib, st, before);
        } else {
          assert false;
        }
  }

  lemma {:induction false} NotWritten(lib: Lib, op: NotOperator, st: St, before: string) returns (s: Script)
    requires P.FirstName(SkipBlanks(st).rest, P.SET_NAMES) == None && P.NextNot(SkipBlanks(st).rest) == Some(op)
    requires IsBlanks(before) && st.rest == before + SkipBlanks(st).rest && SkipBlanks(st).off == st.off + |before|
    requires P.ParseBasic(lib, st).Ok? && P.ParseBasic(lib, st).st.errs == st.errs
    ensures Makes(lib, s, st, P.ParseBasic(lib, st).st, P.ParseBasic(lib, st).value) && !s.Joined?
    decreases |st.rest|, 0, 0
  {
    hide SkipBlanks, P.FirstName, P.NextNot, IsBlanks, Makes, NotSign, WordEnds;
    var st1 := SkipBlanks(st);
    SignWritten(op, st1.rest);
    var st2 := st1.Advance(|NotText(op)|);
    SignNotEmpty(op);
    Silent(st, st2, P.ParseBasic(lib, st).st);
    if P.ParseBasic(lib, st2).Backtrack? {
      assert false;
    }
    var a := BasicWritten(lib, st2);
    MadeTree(lib, a, st2, P.ParseBasic(lib, st2).st, P.ParseBasic(lib, st2).value);
    NegatedMakes(lib, st, before, op, a, st2, P.ParseBasic(lib, st2).st, P.ParseBasic(lib, st2).value.expr);
    s := Negated(before, op, a);
  }

  lemma SignNotEmpty(op: NotOperator)
    ensures |NotText(op)| > 0
  {
  }

  lemma MadeTree(lib: Lib, s: Script, st: St, st1: St, e: P.ExprResult)
    requires Makes(lib, s, st, st1, e)
    ensures e.Valid? && e.expr == Tree(s, st.off)
  {
  }

  lemma {:induction false} ParensWritten(lib: Lib, st: St, before: string) returns (s: Script)
    requires P.FirstName(SkipBlanks(st).rest, P.SET_NAMES) == None && P.NextNot(SkipBlanks(st).rest) == None
    requires "(" <= SkipBlanks(st).rest
    requires IsBlanks(before) && st.rest == before + SkipBlanks(st).rest && SkipBlanks(st).off == st.off + |before|
    requires P.ParseBasic(lib, st).Ok? && P.ParseBasic(lib, st).st.errs == st.errs
    ensures Makes(lib, s, st, P.ParseBasic(lib, st).st, P.ParseBasic(lib, st).value) && !s.Joined?
    decreases |st.rest|, 0, 0
  {
    hide SkipBlanks, P.FirstName, P.NextNot, IsBlanks, Makes, P.ParseOrs, P.ExpectChar;
    var st1 := SkipBlanks(st).Advance(1);
    assert SkipBlanks(st).rest == "(" + st1.rest;
    var (st2, r) := P.ParseOrs(lib, st1);
    var st3 := P.ExpectChar(st2, ')', ExpectedCloseParenthesis);
    Silents(st, st1, st2, st2, st3);
    var a := OrsWritten(lib, st1);
    var after := CharWritten(st2, ')', ExpectedCloseParenthesis);
    MadeTree(lib, a, st1, st2, r);
    EnclosedMakes(lib, st, before, a, st1, st2, after, st3.rest, r.expr, st3);
    s := Enclosed(before, a, after);
  }

  lemma OperatorOr(s: string, op: OrOperator, n: nat)
    requires P.NextOr(s) == Some((P.Operator(op), n))
    ensures n <= |s| && s == OpText(Or(op)) + s[n..] && n == |OpText(Or(op))|
    ensures op == LiteralOr ==> WordEnds(s[n..])
  {
    if op == LiteralOr {
      WordWritten("or", s);
    }
    hide WordEnds;
  }

  lemma OperatorAnd(s: string, op: P.AndOrDifference, n: nat) returns (link: BinaryOp)
    requires P.NextAnd(s) == Some((P.Operator(op), n))
    ensures !link.Or? && GR.Linked(link) == op
    ensures n <= |s| && s == OpText(link) + s[n..] && n == |OpText(link)|
    ensures IsWord(link) ==> WordEnds(s[n..])
  {
    link := if op.And? then And(op.andOp) else BinaryOp.Minus;
    if op == P.And(LiteralAnd) {
      WordWritten("and", s);
    }
    hide WordEnds;
  }

  lemma JoinedMakes(lib: Lib, st0: St, a: Script, st: St, before: string, op: BinaryOp, b: Script, st1: St, st2: St,
                    x: ParsedExpr, y: ParsedExpr)
    requires st.off == st0.off + |Text(a)| && Makes(lib, a, st0, st, P.Valid(x))
    requires IsBlanks(before) && st.rest == before + (OpText(op) + st1.rest)
    requires st1.off == st.off + |before| + |OpText(op)| && Makes(lib, b, st1, st2, P.Valid(y))
    requires IsWord(op) ==> WordEnds(st1.rest)
    requires if op.Or? then !IsOr(b) else !IsOr(a) && !b.Joined?
    ensures Makes(lib, Joined(a, before, op, b), st0, st2, P.Valid(Node(op, x, y)))
  {
    hide IsBlanks, OpText, WordEnds, IsWord;
    if IsWord(op) {
      WordEndsFirst(Text(b), st2.rest);
    }
    GR.TextAnd(Joined(a, before, op, b), st2.rest);
  }

  lemma {:induction false} AndsWritten(lib: Lib, st: St) returns (s: Script)
    requires P.ParseAnds(lib, st).0.errs == st.errs
    ensures Makes(lib, s, st, P.ParseAnds(lib, st).0, P.ParseAnds(lib, st).1) && !IsOr(s)
    decreases |st.rest|, 1
  {
    hide P.ParseBasic, P.AndLoop, Makes;
    var r := P.ParseBasic(lib, st);
    var (st1, first) := P.ExpectExpr(st, r);
    Silent(st, st1, P.ParseAnds(lib, st).0);
    if r.Backtrack? {
      assert false;
    }
    var a := BasicWritten(lib, st);
    MadeTree(lib, a, st, st1, first);
    s := AndLoopWritten(lib, st, a, st1);
  }

  lemma {:induction false} AndLoopWritten(lib: Lib, st0: St, a: Script, st: St) returns (s: Script)
    requires Follows(st0, st) && Makes(lib, a, st0, st, P.Valid(Tree(a, st0.off))) && !IsOr(a)
    requires P.AndLoop(lib, st, P.Valid(Tree(a, st0.off))).0.errs == st.errs
    ensures var (st1, r) := P.AndLoop(lib, st, P.Valid(Tree(a, st0.off)));
            Makes(lib, s, st0, st1, r) && !IsOr(s)
    decreases |st.rest|, 0
  {
    hide P.ParseBasic, P.ParseAnd, Makes, Correct, Text, Tree;
    match P.ParseAnd(st)
    case Backtrack => s := a;
    case Ok(st1, op) =>
      var r := P.ParseBasic(lib, st1);
      var (st2, next) := P.ExpectExpr(st1, r);
      var last := P.AndLoop(lib, st2, P.CombineAnd(op, P.Valid(Tree(a, st0.off)), next)).0;
      Silents(st, st1, st2, st2, last);
      if r.Backtrack? {
        assert false;
      }
      var b := BasicWritten(lib, st1);
      MadeTree(lib, b, st1, st2, next);
      var before, link := AndWritten(st);
      MadeLength(lib, a, st0, st);
      JoinedMakes(lib, st0, a, st, before, link, b, st1, st2, Tree(a, st0.off), Tree(b, st1.off));
      var c := Joined(a, before, link, b);
      NodeTree(lib, c, st0, st2, link, op.op, Tree(a, st0.off), Tree(b, st1.off));
      s := AndLoopWritten(lib, st0, c, st2);
  }

  /** An operator of the chain that is taken without an error. */
  lemma AndWritten(st: St) returns (before: string, link: BinaryOp)
    requires P.ParseAnd(st).Ok? && P.ParseAnd(st).st.errs == st.errs
    ensures !link.Or? && P.ParseAnd(st).value == P.Operator(GR.Linked(link)) && IsBlanks(before)
    ensures st.rest == before + (OpText(link) + P.ParseAnd(st).st.rest)
    ensures P.ParseAnd(st).st.off == st.off + |before| + |OpText(link)|
    ensures IsWord(link) ==> WordEnds(P.ParseAnd(st).st.rest)
  {
    hide SkipBlanks, P.NextAnd, IsBlanks, StartsBlank, OpText, WordEnds, IsWord;
    before := BlanksWritten(st);
    var st1 := SkipBlanks(st);
    var (op, n) := P.NextAnd(st1.rest).value;
    if op.Mistake? {
      assert false;
    }
    link := OperatorAnd(st1.rest, op.op, n);
  }

  lemma OrWritten(st: St) returns (before: string, link: BinaryOp)
    requires P.ParseOr(st).Ok? && P.ParseOr(st).st.errs == st.errs
    ensures link.Or? && P.ParseOr(st).value == P.Operator(link.or) && IsBlanks(before)
    ensures st.rest == before + (OpText(link) + P.ParseOr(st).st.rest)
    ensures P.ParseOr(st).st.off == st.off + |before| + |OpText(link)|
    ensures IsWord(link) ==> WordEnds(P.ParseOr(st).st.rest)
  {
    hide SkipBlanks, P.NextOr, IsBlanks, StartsBlank, OpText, WordEnds;
    before := BlanksWritten(st);
    var st1 := SkipBlanks(st);
    var (op, n) := P.NextOr(st1.rest).value;
    if op.Mistake? {
      assert false;
    }
    link := Or(op.op);
    OperatorOr(st1.rest, op.op, n);
  }

  lemma MadeLength(lib: Lib, a: Script, st0: St, st: St)
    requires Follows(st0, st) && Makes(lib, a, st0, st, P.Valid(Tree(a, st0.off)))
    ensures st.off == st0.off + |Text(a)|
  {
    hide Text, Correct, Tree;
  }

  lemma NodeTree(lib: Lib, s: Script, st0: St, st: St, link: BinaryOp, op: P.AndOrDifference, x: ParsedExpr,
                 y: ParsedExpr)
    requires !link.Or? && GR.Linked(link) == op && Makes(lib, s, st0, st, P.Valid(Node(link, x, y)))
    ensures Tree(s, st0.off) == Node(link, x, y)
    ensures P.CombineAnd(P.Operator(op), P.Valid(x), P.Valid(y)) == P.Valid(Tree(s, st0.off))
  {
    hide Correct, Text, Tree;
  }

  lemma {:induction false} OrsWritten(lib: Lib, st: St) returns (s: Script)
    requires P.ParseOrs(lib, st).0.errs == st.errs
    ensures Makes(lib, s, st, P.ParseOrs(lib, st).0, P.ParseOrs(lib, st).1)
    decreases |st.rest|, 3
  {
    hide P.ParseAnds, P.OrLoop, Makes;
    var (st1, first) := P.ParseAnds(lib, st);
    Silent(st, st1, P.ParseOrs(lib, st).0);
    var a := AndsWritten(lib, st);
    MadeTree(lib, a, st, st1, first);
    s := OrLoopWritten(lib, st, a, st1);
  }

  lemma {:induction false} OrLoopWritten(lib: Lib, st0: St, a: Script, st: St) returns (s: Script)
    requires Follows(st0, st) && Makes(lib, a, st0, st, P.Valid(Tree(a, st0.off)))
    requires P.OrLoop(lib, st, P.Valid(Tree(a, st0.off))).0.errs == st.errs
    ensures var (st1, r) := P.OrLoop(lib, st, P.Valid(Tree(a, st0.off))); Makes(lib, s, st0, st1, r)
    decreases |st.rest|, 2
  {
    hide P.ParseAnds, P.ParseOr, Makes, Correct, Text, Tree;
    match P.ParseOr(st)
    case Backtrack => s := a;
    case Ok(st1, op) =>
      var (st2, next) := P.ParseAnds(lib, st1);
      var last := P.OrLoop(lib, st2, P.CombineOr(op, P.Valid(Tree(a, st0.off)), next)).0;
      Silents(st, st1, st2, st2, last);
      var b := AndsWritten(lib, st1);
      MadeTree(lib, b, st1, st2, next);
      var before, link := OrWritten(st);
      MadeLength(lib, a, st0, st);
      JoinedMakes(lib, st0, a, st, before, link, b, st1, st2, Tree(a, st0.off), Tree(b, st1.off));
      var c := Joined(a, before, link, b);
      MadeTree(lib, c, st0, st2, P.Valid(Node(link, Tree(a, st0.off), Tree(b, st1.off))));
      s := OrLoopWritten(lib, st0, c, st2);
  }

  /** An input that is read without an error is written as the grammar says, and its tree is
      the one it stands for. */
  lemma GrammarWritten(lib: Lib, input: string) returns (s: Script, end: string)
    requires P.Parse(lib, input).0.errs == []
    ensures Correct(lib, s) && IsBlanks(end) && input == Text(s) + end
    ensures P.Parse(lib, input).1 == P.Valid(Tree(s, 0))
  {
    hide P.ParseOrs, SkipBlanks, Correct, Text, Tree, IsBlanks, StartsBlank;
    var st0 := St(0, input, []);
    var (st, r) := P.ParseOrs(lib, st0);
    var st1 := SkipBlanks(st);
    if st1.rest != "" {
      assert false;
    }
    s := OrsWritten(lib, st0);
    end := BlanksWritten(st);
    assert end + "" == end;
  }

  /** Exactly what the grammar allows is read without an error, and it gives exactly the tree
      it stands for, each span where its leaf is. */
  lemma ParseExact(lib: Lib, input: string, e: ParsedExpr)
    ensures P.Parse(lib, input) == (St(|input|, "", []), P.Valid(e))
            <==> exists s, end :: Correct(lib, s) && IsBlanks(end) && input == Text(s) + end && Tree(s, 0) == e
    ensures P.Parse(lib, input).0.errs == [] ==> P.Parse(lib, input).0 == St(|input|, "", [])
  {
    hide P.Parse, Correct, Text, Tree, IsBlanks;
    if P.Parse(lib, input).0.errs == [] {
      var s, end := GrammarWritten(lib, input);
      GR.GrammarReads(lib, s, end);
    }
    forall s, end | Correct(lib, s) && IsBlanks(end) && input == Text(s) + end && Tree(s, 0) == e
      ensures P.Parse(lib, input) == (St(|input|, "", []), P.Valid(e))
    {
      GR.GrammarReads(lib, s, end);
    }
  }
}
