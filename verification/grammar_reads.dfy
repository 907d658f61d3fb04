/** Everything the grammar allows is read, silently, to the tree it stands for. */
module GrammarReads {
  import opened Wrappers
  import opened CharClasses
  import opened FiltersetSyntax
  import opened ParserState
  import opened MatcherText
  import opened MatcherRoundTrip
  import P = FiltersetParser
  import RT = ExpressionRoundTrip
  import opened G = FiltersetGrammar

  // ----- blanks -----

  /** The stream `n` characters on, with `t` still to read, and nothing reported. */
  function Past(st: St, n: nat, t: string): St {
    St(st.off + n, t, st.errs)
  }

  lemma NoBlank(s: string)
    ensures BlankLength(s) == 0 <==> !StartsBlank(s)
    ensures !StartsBlank(s) ==> DropBlanks(s) == s
  {
  }

  lemma {:induction false} BlanksDrop(g: string, x: string)
    requires IsBlanks(g) && !StartsBlank(x)
    ensures DropBlanks(g + x) == x
  {
    if g == "" {
      assert g + x == x;
      NoBlank(x);
    } else if g[0] == '\r' {
      assert (g + x)[2..] == g[2..] + x;
      BlanksDrop(g[2..], x);
    } else {
      assert (g + x)[1..] == g[1..] + x;
      BlanksDrop(g[1..], x);
    }
  }

  lemma BlanksSkip(st: St, g: string, x: string)
    requires st.rest == g + x && IsBlanks(g) && !StartsBlank(x)
    ensures SkipBlanks(st) == Past(st, |g|, x)
  {
    BlanksDrop(g, x);
    SkipBlanksDrops(st);
  }

  lemma CharExpected(st: St, g: string, c: char, kind: ErrorKind, x: string)
    requires st.rest == g + ([c] + x) && IsBlanks(g) && (c == '(' || c == ')')
    ensures P.ExpectChar(st, c, kind) == Past(st, |g| + 1, x)
  {
    BlanksSkip(st, g, [c] + x);
    hide SkipBlanks, IsBlanks;
  }

  /** A parenthesis closes what stands right before it. */
  lemma CloseExpected(st: St, t: string)
    requires st.rest == ")" + t
    ensures P.ExpectChar(st, ')', ExpectedCloseParenthesis) == Past(st, 1, t) && P.RecoverComma(st) == st
    ensures EndsText(st.rest) && !StartsBlank(st.rest)
  {
    assert st.rest[1..] == t && st.rest[0] == ')';
    assert SkipBlanks(st) == st;
  }

  // ----- strings -----

  lemma {:induction false} DigitsDenote(digits: string, n: nat)
    requires Denotes(digits, n)
    ensures (forall c <- digits :: IsHexDigit(c)) && HexValue(digits) == n
  {
    if digits != "" {
      var init, c := digits[..|digits| - 1], digits[|digits| - 1];
      DigitsDenote(init, n / 16);
      DigitValue(c, n % 16);
      assert digits == init + [c];
    }
  }

  lemma DigitValue(c: char, d: nat)
    requires d < 16
    ensures c in [LOWER_DIGITS[d], UPPER_DIGITS[d]] <==> IsHexDigit(c) && HexDigitValue(c) == d
  {
  }

  lemma NumberReads(piece: string, c: char, t: string)
    requires WritesNumber(piece, c)
    ensures UnicodeEscape((piece + t)[1..]) == Some((c, |piece| - 1))
  {
    var digits := piece[3..|piece| - 1];
    var s := (piece + t)[1..];
    DigitsDenote(digits, c as nat);
    assert piece[..3][0] == '\\' && piece[..3][1] == 'u' && piece[..3][2] == '{';
    assert s[0] == 'u' && s[1] == '{';
    assert s[2..] == digits + ("}" + t);
    HexRunStops(digits, "}" + t, 6);
    assert s[2..][..|digits|] == digits;
    hide HexRun, HexValue, Denotes;
  }

  /** A piece that starts with a backslash is an escape. */
  lemma EscapeTaken(piece: string, c: char, t: string)
    requires Writes(piece, c) && piece != [c]
    ensures |piece| >= 2 && piece[0] == '\\' && Escape((piece + t)[1..]) == Some((c, |piece| - 1))
  {
    hide WritesNumber, UnicodeEscape;
    if WritesNumber(piece, c) {
      NumberReads(piece, c, t);
      NumberStarts(piece, c);
    } else {
      var s := (piece + t)[1..];
      assert s[0] == piece[1] && piece[1] != 'u';
      NoUnicode(s);
    }
  }

  lemma NumberStarts(piece: string, c: char)
    requires WritesNumber(piece, c)
    ensures |piece| >= 2 && piece[0] == '\\'
  {
    assert piece[0] == piece[..3][0];
  }

  lemma NoUnicode(s: string)
    requires s != "" && s[0] != 'u'
    ensures UnicodeEscape(s).None?
  {
  }

  lemma OneCharacter(piece: string, c: char)
    requires Writes(piece, c) && piece == [c]
    ensures c != '\\' && !EndsText([c])
  {
    assert |piece| == 1;
  }

  lemma PieceReads(piece: string, c: char, st: St, acc: Option<string>, t: string)
    requires Writes(piece, c) && st.rest == piece + t
    ensures ReadText(st, acc) == ReadText(Past(st, |piece|, t), Append(acc, c))
  {
    hide ReadText, Writes, Escape, EndsText, Append, Follows;
    if piece == [c] {
      OneCharacter(piece, c);
      ReadPlain(st, acc, c, t);
    } else {
      var n := |piece| - 1;
      EscapeTaken(piece, c, t);
      assert st.rest[1..][n..] == t;
      ReadEscape(st, acc, c, n, t);
    }
  }

  /** A string in front of anything: its characters are read, and then what follows. */
  lemma {:induction false} TextReadsOn(raw: string, v: string, st: St, acc: string, t: string)
    requires WritesText(raw, v) && st.rest == raw + t
    ensures ReadText(st, Some(acc)) == ReadText(Past(st, |raw|, t), Some(acc + v))
    decreases v
  {
    hide Writes, ReadText;
    if v == "" {
      assert st.rest == t;
      assert acc + v == acc;
    } else {
      var n :| 0 < n <= |raw| && Writes(raw[..n], v[0]) && WritesText(raw[n..], v[1..]);
      assert st.rest == raw[..n] + (raw[n..] + t);
      PieceReads(raw[..n], v[0], st, Some(acc), raw[n..] + t);
      TextReadsOn(raw[n..], v[1..], Past(st, n, raw[n..] + t), acc + [v[0]], t);
      assert acc + [v[0]] + v[1..] == acc + v;
    }
  }

  lemma TextReads(raw: string, v: string, st: St, acc: string, t: string)
    requires WritesText(raw, v) && st.rest == raw + t && EndsText(t)
    ensures ReadText(st, Some(acc)) == (Past(st, |raw|, t), Some(acc + v))
  {
    hide WritesText, ReadText, EndsText;
    TextReadsOn(raw, v, st, acc, t);
    EndReads(Past(st, |raw|, t), Some(acc + v));
  }

  lemma EndReads(st: St, acc: Option<string>)
    requires EndsText(st.rest)
    ensures ReadText(st, acc) == (st, acc)
  {
  }

  lemma ArgumentTextReads(raw: string, v: string, st: St, t: string)
    requires WritesText(raw, v) && v != "" && st.rest == raw + t && EndsText(t)
    ensures P.ParseText(st) == (Past(st, |raw|, t), Some(v))
  {
    TextReads(raw, v, st, "", t);
    assert "" + v == v;
    hide ReadText, WritesText;
  }

  lemma {:induction false} RegexReads(raw: string, r: string, t: string)
    requires WritesRegex(raw, r)
    ensures ReadRegex(raw + ("/" + t)) == (r, |raw|)
    decreases |raw|
  {
    var s := raw + ("/" + t);
    if raw == "" {
      assert s == "/" + t;
    } else if IsEscapedSlash(raw) {
      RegexReads(raw[2..], r[1..], t);
      assert s[2..] == raw[2..] + ("/" + t);
      assert r == [r[0]] + r[1..];
    } else {
      RegexReads(raw[1..], r[1..], t);
      assert s[1..] == raw[1..] + ("/" + t);
      assert r == [r[0]] + r[1..];
      assert !IsEscapedSlash(s);
    }
  }

  // ----- arguments -----

  lemma RegexMatcherReads(lib: Lib, d: DefaultMatcher, raw: string, r: string, st: St, x: string)
    requires WritesRegex(raw, r) && lib.validRegex(r) && SkipBlanks(st).rest == "/" + (raw + ("/" + x))
    ensures P.SetMatcher(lib, d, st) == (Past(SkipBlanks(st), |raw| + 2, x), Some(Regex(r)))
  {
    hide WritesRegex, ReadRegex, SkipBlanks, P.ParseRegex, P.ParseDefaultMatcher, P.ParseGlob, P.ParseEqual,
         P.ParseContains, Follows;
    var st1 := SkipBlanks(st).Advance(1);
    assert st1.rest == raw + ("/" + x);
    RegexBodyReads(lib, raw, r, st1, x);
  }

  lemma RegexBodyReads(lib: Lib, raw: string, r: string, st: St, x: string)
    requires WritesRegex(raw, r) && lib.validRegex(r) && st.rest == raw + ("/" + x)
    ensures P.ParseRegex(lib, st) == (Past(st, |raw| + 1, x), Some(Regex(r)))
  {
    hide WritesRegex, ReadRegex, P.SkipSlash, TakeTill, Follows;
    RegexReads(raw, r, x);
    var st1 := st.Advance(|raw|);
    assert st1.rest == "/" + x;
    SlashSkips(st1, x);
  }

  lemma SlashSkips(st: St, x: string)
    requires st.rest == "/" + x
    ensures P.SkipSlash(st) == Past(st, 1, x)
  {
    assert SkipBlanks(st) == st;
    assert st.rest[1..] == x;
  }

  lemma ExplicitReads(lib: Lib, d: DefaultMatcher, m: NameMatcher, raw: string, st: St, c: char, x: string)
    requires !m.Regex? && !m.implicit && Value(m) != "" && WritesText(raw, Value(m))
    requires m.Glob? ==> lib.validGlob(m.glob)
    requires c == (if m.Equal? then '=' else if m.Contains? then '~' else '#')
    requires SkipBlanks(st).rest == [c] + (raw + x) && EndsText(x)
    ensures P.SetMatcher(lib, d, st) == (Past(SkipBlanks(st), |raw| + 1, x), Some(m))
  {
    hide SkipBlanks, WritesText, P.ParseText, P.ParseRegex, P.ParseDefaultMatcher, EndsText;
    var st1 := SkipBlanks(st);
    var st2 := st1.Advance(1);
    assert st2.rest == raw + x;
    ArgumentTextReads(raw, Value(m), st2, x);
    assert st1.rest[0] == c;
  }

  lemma ImplicitReads(lib: Lib, p: Predicate, m: NameMatcher, raw: string, st: St, x: string)
    requires !m.Regex? && m.implicit && MatcherFits(lib, p, m, raw, "")
    requires SkipBlanks(st).rest == raw + x && EndsText(x)
    ensures P.SetMatcher(lib, DefaultFor(p), st) == (Past(SkipBlanks(st), |raw|, x), Some(m))
  {
    hide SkipBlanks, WritesText, P.ParseText, P.ParseRegex, EndsText, StartsBlank;
    var st1 := SkipBlanks(st);
    ArgumentTextReads(raw, Value(m), st1, x);
    assert st1.rest[0] == raw[0];
  }

  /** An argument, in front of anything that can follow one. */
  lemma MatcherReads(lib: Lib, p: Predicate, m: NameMatcher, st: St, lead: string, raw: string, x: string)
    returns (st1: St)
    requires IsBlanks(lead) && MatcherFits(lib, p, m, raw, "") && (m.Regex? || EndsText(x))
    requires st.rest == lead + (Argument(Matching(p, m, NO_SPAN), raw) + x)
    ensures P.SetMatcher(lib, DefaultFor(p), st) == (st1, Some(m))
    ensures st1.off == st.off + |lead| + |Argument(Matching(p, m, NO_SPAN), raw)|
    ensures st1.rest == x && st1.errs == st.errs
  {
    hide IsBlanks, SkipBlanks, WritesText, WritesRegex, StartsBlank, P.SetMatcher, Follows, EndsText, Argument;
    ArgumentStarts(lib, p, m, raw, x);
    BlanksSkip(st, lead, Argument(Matching(p, m, NO_SPAN), raw) + x);
    st1 := MatcherBodyReads(lib, p, m, st, raw, x);
  }

  /** The same, once the blanks are skipped. */
  lemma MatcherBodyReads(lib: Lib, p: Predicate, m: NameMatcher, st: St, raw: string, x: string) returns (st1: St)
    requires MatcherFits(lib, p, m, raw, "") && (m.Regex? || EndsText(x))
    requires SkipBlanks(st).rest == Argument(Matching(p, m, NO_SPAN), raw) + x
    ensures P.SetMatcher(lib, DefaultFor(p), st) == (st1, Some(m))
    ensures st1.off == SkipBlanks(st).off + |Argument(Matching(p, m, NO_SPAN), raw)|
    ensures st1.rest == x && st1.errs == SkipBlanks(st).errs
  {
    hide IsBlanks, SkipBlanks, WritesText, WritesRegex, StartsBlank, P.SetMatcher, Follows, EndsText;
    var arg := Argument(Matching(p, m, NO_SPAN), raw);
    st1 := Past(SkipBlanks(st), |arg|, x);
    if m.Regex? {
      RegexShape(raw, x);
      RegexMatcherReads(lib, DefaultFor(p), raw, m.regex, st, x);
    } else if m.implicit {
      ImplicitReads(lib, p, m, raw, st, x);
    } else {
      CharShape(arg[0], raw, x);
      ExplicitReads(lib, DefaultFor(p), m, raw, st, arg[0], x);
    }
  }

  lemma RegexShape(raw: string, x: string)
    ensures ("/" + (raw + "/")) + x == "/" + (raw + ("/" + x))
  {
    Regroup("/", raw, "/", "", x);
  }

  lemma CharShape(c: char, raw: string, x: string)
    ensures ([c] + raw) + x == [c] + (raw + x)
  {
  }

  lemma ArgumentStarts(lib: Lib, p: Predicate, m: NameMatcher, raw: string, x: string)
    requires MatcherFits(lib, p, m, raw, "") && (m.Regex? || EndsText(x))
    ensures !StartsBlank(Argument(Matching(p, m, NO_SPAN), raw) + x)
  {
    hide WritesText, WritesRegex;
  }

  lemma TailEnds(lib: Lib, p: Predicate, m: NameMatcher, raw: string, tail: string, t: string)
    requires MatcherFits(lib, p, m, raw, tail)
    ensures MatcherFits(lib, p, m, raw, "") && (m.Regex? || EndsText(tail + (")" + t)))
  {
    hide WritesText, WritesRegex;
  }

  // ----- sets -----

  lemma NoComma(st: St, tail: string, t: string)
    requires st.rest == tail + (")" + t) && IsBlanks(tail)
    ensures P.RecoverComma(st) == st
  {
    BlanksSkip(st, tail, ")" + t);
    hide SkipBlanks, IsBlanks;
  }

  lemma UnarySteps(lib: Lib, p: Predicate, m: NameMatcher, st: St, st2: St, st3: St, st4: St)
    requires P.ExpectChar(st, '(', ExpectedOpenParenthesis) == st2
    requires P.SetMatcher(lib, DefaultFor(p), st2) == (st3, Some(m)) && P.RecoverComma(st3) == st3
    requires P.ExpectChar(st3, ')', ExpectedCloseParenthesis) == st4
    ensures st2.off <= st3.off
    ensures P.ParseUnary(lib, p, st) == (st4, Some(Matching(p, m, Span(st2.off, st3.off - st2.off))))
  {
    hide P.SetMatcher, P.ExpectChar, P.RecoverComma;
  }

  /** From the argument to the end: where it stops, and where the set stops. */
  lemma ArgumentReads(lib: Lib, p: Predicate, m: NameMatcher, st: St, lead: string, raw: string, tail: string,
                      t: string)
    returns (st1: St, st2: St)
    requires IsBlanks(lead) && IsBlanks(tail) && MatcherFits(lib, p, m, raw, tail)
    requires st.rest == lead + (Argument(Matching(p, m, NO_SPAN), raw) + (tail + (")" + t)))
    ensures P.SetMatcher(lib, DefaultFor(p), st) == (st1, Some(m)) && P.RecoverComma(st1) == st1
    ensures P.ExpectChar(st1, ')', ExpectedCloseParenthesis) == st2
    ensures st1.off == st.off + |lead| + |Argument(Matching(p, m, NO_SPAN), raw)|
    ensures st2 == St(st1.off + |tail| + 1, t, st.errs)
  {
    hide P.SetMatcher, P.ExpectChar, P.RecoverComma, IsBlanks, Argument, MatcherFits, Follows;
    TailEnds(lib, p, m, raw, tail, t);
    st1 := MatcherReads(lib, p, m, st, lead, raw, tail + (")" + t));
    st2 := Past(st1, |tail| + 1, t);
    NoComma(st1, tail, t);
    CharExpected(st1, tail, ')', ExpectedCloseParenthesis, t);
  }

  lemma UnaryReads(lib: Lib, p: Predicate, m: NameMatcher, st: St, gap: string, lead: string, raw: string, tail: string,
                   t: string) returns (st1: St, span: Span)
    requires IsBlanks(gap) && IsBlanks(lead) && IsBlanks(tail) && MatcherFits(lib, p, m, raw, tail)
    requires st.rest == gap + ("(" + (lead + (Argument(Matching(p, m, NO_SPAN), raw) + (tail + (")" + t)))))
    ensures P.ParseUnary(lib, p, st) == (st1, Some(Matching(p, m, span)))
    ensures span.offset == st.off + |gap| + 1 && span.length == |lead| + |Argument(Matching(p, m, NO_SPAN), raw)|
    ensures st1.off == span.End() + |tail| + 1 && st1.rest == t && st1.errs == st.errs
  {
    hide P.ParseUnary, P.SetMatcher, P.ExpectChar, P.RecoverComma, IsBlanks, Argument, MatcherFits, Follows;
    var y := lead + (Argument(Matching(p, m, NO_SPAN), raw) + (tail + (")" + t)));
    CharExpected(st, gap, '(', ExpectedOpenParenthesis, y);
    var st2 := Past(st, |gap| + 1, y);
    var st3, st4 := ArgumentReads(lib, p, m, st2, lead, raw, tail, t);
    UnarySteps(lib, p, m, st, st2, st3, st4);
    st1, span := st4, Span(st2.off, st3.off - st2.off);
  }

  lemma {:induction false} TrimLeft(s: string, i: nat)
    requires i <= |s| && AllWhitespace(s[..i])
    ensures P.Trim(s) == P.Trim(s[i..])
    decreases i
  {
    if i == 0 {
      assert s[0..] == s;
    } else {
      assert s[0] in s[..i];
      assert forall c <- s[1..][..i - 1] :: c in s[..i];
      TrimLeft(s[1..], i - 1);
      assert s[1..][i - 1..] == s[i..];
    }
  }

  lemma {:induction false} TrimRight(s: string, n: nat)
    requires 0 < n <= |s| && !IsWhitespace(s[0]) && !IsWhitespace(s[n - 1]) && AllWhitespace(s[n..])
    ensures P.Trim(s) == s[..n]
    decreases |s|
  {
    if n < |s| {
      assert s[|s| - 1] in s[n..];
      assert forall c <- s[..|s| - 1][n..] :: c in s[n..];
      TrimRight(s[..|s| - 1], n);
      assert s[..|s| - 1][..n] == s[..n];
    } else {
      assert s[..n] == s;
    }
  }

  lemma PaddedTrims(v: string, word: string)
    requires Padded(v, word) && word != "" && !IsWhitespace(word[0]) && !IsWhitespace(word[|word| - 1])
    ensures P.Trim(v) == word
  {
    var i :| PadsAt(v, word, i);
    assert PadsAt(v, word, i);
    TrimLeft(v, i);
    var s := v[i..];
    assert s[..|word|] == word && s[|word|..] == v[i + |word|..];
    TrimRight(s, |word|);
    hide P.Trim, IsWhitespace;
  }

  function PlatformWord(p: Platform): string {
    if p.Host? then "host" else "target"
  }

  lemma PlatformReads(lib: Lib, p: Platform, st: St, gap: string, lead: string, raw: string, t: string)
    returns (st1: St, span: Span)
    requires IsBlanks(gap) && LeafFits(lib, PlatformIs(p, NO_SPAN), lead, raw, "")
    requires st.rest == gap + ("(" + (lead + (raw + (")" + t))))
    ensures P.ParsePlatform(st) == (st1, Some(PlatformIs(p, span)))
    ensures span.offset == st.off + |gap| + 1 && span.length == |lead| + |raw|
    ensures st1.off == span.End() + 1 && st1.rest == t && st1.errs == st.errs
  {
    var x := ")" + t;
    var v :| WritesText(raw, v) && Padded(v, PlatformWord(p));
    PaddedTrims(v, PlatformWord(p));
    RawStarts(raw, v, x);
    st1, span := PlatformSafe(lib, p, st, gap, lead, raw, v, t);
  }

  lemma PlatformTextReads(v: string, st: St, lead: string, raw: string, t: string) returns (st1: St, st2: St, st3: St)
    requires IsBlanks(lead) && WritesText(raw, v) && v != ""
    requires !StartsBlank(raw + (")" + t)) && st.rest == lead + (raw + (")" + t))
    ensures SkipBlanks(st) == st1 && P.ParseText(st1) == (st2, Some(v))
    ensures P.RecoverComma(st2) == st2 && P.ExpectChar(st2, ')', ExpectedCloseParenthesis) == st3
    ensures st2.off == st.off + |lead| + |raw| && st3 == St(st2.off + 1, t, st.errs)
  {
    hide SkipBlanks, P.ParseText, P.ExpectChar, P.RecoverComma, IsBlanks, WritesText, StartsBlank, Follows;
    BlanksSkip(st, lead, raw + (")" + t));
    st1 := Past(st, |lead|, raw + (")" + t));
    st2 := Past(st1, |raw|, ")" + t);
    st3 := Past(st2, 1, t);
    CloseExpected(st2, t);
    ArgumentTextReads(raw, v, st1, ")" + t);
  }

  lemma PlatformSafe(lib: Lib, p: Platform, st: St, gap: string, lead: string, raw: string, v: string, t: string)
    returns (st1: St, span: Span)
    requires IsBlanks(gap) && IsBlanks(lead) && WritesText(raw, v) && v != "" && P.Trim(v) == PlatformWord(p)
    requires !StartsBlank(raw + (")" + t)) && st.rest == gap + ("(" + (lead + (raw + (")" + t))))
    ensures P.ParsePlatform(st) == (st1, Some(PlatformIs(p, span)))
    ensures span.offset == st.off + |gap| + 1 && span.length == |lead| + |raw|
    ensures st1.off == span.End() + 1 && st1.rest == t && st1.errs == st.errs
  {
    hide SkipBlanks, P.ParseText, P.ExpectChar, P.RecoverComma, P.ParsePlatform, P.Trim, IsBlanks, WritesText,
         StartsBlank,
         PlatformWord, Follows;
    var y := lead + (raw + (")" + t));
    CharExpected(st, gap, '(', ExpectedOpenParenthesis, y);
    var st2 := Past(st, |gap| + 1, y);
    var st3, st4, st5 := PlatformTextReads(v, st2, lead, raw, t);
    PlatformSteps(p, v, st, st2, st3, st4, st5);
    st1, span := st5, Span(st2.off, st4.off - st2.off);
  }

  lemma PlatformSteps(p: Platform, v: string, st: St, st2: St, st3: St, st4: St, st5: St)
    requires P.ExpectChar(st, '(', ExpectedOpenParenthesis) == st2
    requires SkipBlanks(st2) == st3 && P.ParseText(st3) == (st4, Some(v)) && P.Trim(v) == PlatformWord(p)
    requires P.RecoverComma(st4) == st4 && P.ExpectChar(st4, ')', ExpectedCloseParenthesis) == st5
    ensures st2.off <= st4.off && P.ParsePlatform(st) == (st5, Some(PlatformIs(p, Span(st2.off, st4.off - st2.off))))
  {
    hide P.ExpectChar, SkipBlanks, P.ParseText, P.Trim, P.RecoverComma;
  }

  lemma RawStarts(raw: string, v: string, x: string)
    requires WritesText(raw, v) && v != "" && !StartsBlank(raw) && x != "" && x[0] == ')'
    ensures raw != "" && !StartsBlank(raw + x)
  {
    var n :| 0 < n <= |raw| && Writes(raw[..n], v[0]) && WritesText(raw[n..], v[1..]);
    hide Writes, WritesText;
  }

  lemma {:induction false} TakenTill(st: St, raw: string, c: char, t: string)
    requires st.rest == raw + ([c] + t) && c !in raw
    ensures TakeTill(st, c) == Past(st, |raw|, [c] + t)
    decreases raw
  {
    if raw == "" {
      assert st.rest == [c] + t;
    } else {
      assert st.rest[0] == raw[0] && st.rest[1..] == raw[1..] + ([c] + t);
      TakenTill(st.Advance(1), raw[1..], c, t);
    }
  }

  lemma NullaryReads(n: P.SetName, start: nat, st: St, gap: string, raw: string, t: string)
    returns (st1: St, v: ParsedLeaf)
    requires start <= st.off && IsBlanks(gap) && AllWhitespace(raw)
    requires n.DefaultName? || n.AllName? || n.NoneName?
    requires st.rest == gap + ("(" + (raw + (")" + t)))
    ensures P.ParseNullary(n, start, st) == (st1, Some(v))
    ensures st1.off == st.off + |gap| + |raw| + 2 && st1.rest == t && st1.errs == st.errs
    ensures v == if n.DefaultName? then Default(Span(start, st1.off - start)) else if n.AllName? then All else Nothing
  {
    hide IsBlanks, AllWhitespace, P.ExpectChar, TakeTill, P.Trim, P.ParseNullary, Follows;
    NoParenthesis(raw);
    TrimLeft(raw, |raw|);
    TrimmedAway(raw);
    var x := ")" + t;
    CharExpected(st, gap, '(', ExpectedOpenParenthesis, raw + x);
    var st2 := Past(st, |gap| + 1, raw + x);
    TakenTill(st2, raw, ')', t);
    var st3 := Past(st2, |raw|, x);
    CloseExpected(st3, t);
    st1 := Past(st3, 1, t);
    NullarySteps(n, start, raw, st, st2, st3, st1);
    v := if n.DefaultName? then Default(Span(start, st1.off - start)) else if n.AllName? then All else Nothing;
  }

  lemma NoParenthesis(raw: string)
    requires AllWhitespace(raw)
    ensures ')' !in raw && AllWhitespace(raw[..|raw|])
  {
  }

  lemma TrimmedAway(raw: string)
    requires P.Trim(raw) == P.Trim(raw[|raw|..])
    ensures P.Trim(raw) == ""
  {
  }

  lemma NullarySteps(n: P.SetName, start: nat, raw: string, st: St, st2: St, st3: St, st4: St)
    requires start <= st.off && (n.DefaultName? || n.AllName? || n.NoneName?)
    requires P.ExpectChar(st, '(', ExpectedOpenParenthesis) == st2 && TakeTill(st2, ')') == st3
    requires st2.rest == raw + st3.rest && P.Trim(raw) == ""
    requires P.ExpectChar(st3, ')', ExpectedCloseParenthesis) == st4
    ensures start <= st4.off
    ensures P.ParseNullary(n, start, st)
            == (st4, Some(if n.DefaultName? then Default(Span(start, st4.off - start))
                          else if n.AllName? then All else Nothing))
  {
    hide P.ExpectChar, TakeTill, P.Trim;
    assert st2.rest[..|st2.rest| - |st3.rest|] == raw;
  }

  // ----- names -----

  lemma NameIs(l: ParsedLeaf)
    ensures Name(l) == P.SetKeyword(RT.NameOf(l))
  {
  }

  /** Only `binary` is how another name starts. */
  lemma NamesApart(a: P.SetName, b: P.SetName, y: string)
    requires a != b && !(a == P.Takes(Binary) && b == P.Takes(BinaryId))
    requires y != "" && (y[0] == '(' || y[0] == ' ' || y[0] == '\n' || y[0] == '\r')
    ensures !(P.SetKeyword(a) <= P.SetKeyword(b) + y)
  {
    var s, k := P.SetKeyword(b) + y, P.SetKeyword(b);
    assert |k| >= 3 && s[0] == k[0] && s[1] == k[1] && s[2] == k[2];
    assert |k| == 6 ==> s[6] == y[0];
  }

  lemma NameReads(n: P.SetName, y: string)
    requires y != "" && (y[0] == '(' || y[0] == ' ' || y[0] == '\n' || y[0] == '\r')
    ensures P.FirstName(P.SetKeyword(n) + y, P.SET_NAMES) == Some(n)
  {
    var s := P.SetKeyword(n) + y;
    var k := RT.Rank(n);
    forall i | 0 <= i < k
      ensures !(P.SetKeyword(P.SET_NAMES[i]) <= s)
    {
      assert RT.Rank(P.SET_NAMES[i]) == i;
      NamesApart(P.SET_NAMES[i], n, y);
    }
    RT.FirstNameIs(s, P.SET_NAMES, k);
  }

  // ----- leaves -----

  /** What stands behind the name of a leaf. */
  function Behind(l: ParsedLeaf, gap: string, lead: string, raw: string, tail: string, t: string): string {
    gap + ("(" + (lead + (Argument(l, raw) + (tail + (")" + t)))))
  }

  lemma LeafShape(l: ParsedLeaf, gap: string, lead: string, raw: string, tail: string, t: string)
    ensures LeafText(l, gap, lead, raw, tail) + t == Name(l) + Behind(l, gap, lead, raw, tail, t)
    ensures |LeafText(l, gap, lead, raw, tail)|
            == |Name(l)| + |gap| + 1 + |lead| + |Argument(l, raw)| + |tail| + 1
  {
    hide Name, Argument;
  }

  lemma BehindStarts(l: ParsedLeaf, gap: string, lead: string, raw: string, tail: string, t: string)
    requires IsBlanks(gap)
    ensures var y := Behind(l, gap, lead, raw, tail, t);
            y != "" && (y[0] == '(' || y[0] == ' ' || y[0] == '\n' || y[0] == '\r')
  {
    hide Argument;
  }

  lemma LeafArgumentReads(lib: Lib, l: ParsedLeaf, gap: string, lead: string, raw: string, tail: string, start: nat,
                          st: St, t: string)
    returns (st1: St, v: ParsedLeaf)
    requires IsBlanks(gap) && LeafFits(lib, l, lead, raw, tail) && start + |Name(l)| == st.off
    requires st.rest == Behind(l, gap, lead, raw, tail, t)
    ensures P.ParseArgument(lib, RT.NameOf(l), start, st) == (st1, Some(v))
    ensures v == G.Placed(l, start, gap, lead, raw)
    ensures st1.off == start + |LeafText(l, gap, lead, raw, tail)| && st1.rest == t && st1.errs == st.errs
  {
    hide P.ParseUnary, P.ParsePlatform, P.ParseNullary, MatcherFits, IsBlanks, StartsBlank, WritesText, Padded,
         AllWhitespace, LeafText, Name;
    LeafShape(l, gap, lead, raw, tail, t);
    var span;
    match l
    case Matching(p, m, at) =>
      SpanDoesNotMatter(p, m, at, raw);
      st1, span := UnaryReads(lib, p, m, st, gap, lead, raw, tail, t);
      v := Matching(p, m, span);
    case PlatformIs(p, _) =>
      EmptyTail(lead, raw, t);
      st1, span := PlatformReads(lib, p, st, gap, lead, raw, t);
      v := PlatformIs(p, span);
    case _ =>
      EmptyTail("", raw, t);
      st1, v := NullaryReads(RT.NameOf(l), start, st, gap, raw, t);
  }

  lemma SpanDoesNotMatter(p: Predicate, m: NameMatcher, at: Span, raw: string)
    ensures Argument(Matching(p, m, at), raw) == Argument(Matching(p, m, NO_SPAN), raw)
  {
  }

  lemma EmptyTail(lead: string, raw: string, t: string)
    ensures lead + (raw + ("" + (")" + t))) == lead + (raw + (")" + t))
    ensures "" + (raw + ("" + (")" + t))) == raw + (")" + t)
  {
    assert "" + (")" + t) == ")" + t;
  }

  lemma LeafReads(lib: Lib, l: ParsedLeaf, gap: string, lead: string, raw: string, tail: string, st: St, t: string)
    returns (st1: St)
    requires IsBlanks(gap) && LeafFits(lib, l, lead, raw, tail)
    requires st.rest == LeafText(l, gap, lead, raw, tail) + t
    ensures P.FirstName(st.rest, P.SET_NAMES) == Some(RT.NameOf(l)) && P.SetKeyword(RT.NameOf(l)) <= st.rest
    ensures P.ParseSet(lib, RT.NameOf(l), st) == (st1, Some(G.Placed(l, st.off, gap, lead, raw)))
    ensures st1.off == st.off + |LeafText(l, gap, lead, raw, tail)| && st1.rest == t && st1.errs == st.errs
  {
    hide LeafText, LeafFits, IsBlanks, Behind, Name, P.SetKeyword, P.ParseArgument, P.FirstName, G.Placed, RT.NameOf;
    var y := Behind(l, gap, lead, raw, tail, t);
    LeafShape(l, gap, lead, raw, tail, t);
    BehindStarts(l, gap, lead, raw, tail, t);
    NameIs(l);
    NameReads(RT.NameOf(l), y);
    var st2 := St(st.off + |Name(l)|, y, st.errs);
    assert st.Advance(|Name(l)|) == st2;
    var v;
    st1, v := LeafArgumentReads(lib, l, gap, lead, raw, tail, st.off, st2, t);
  }

  // ----- expressions -----

  lemma {:induction false} TextStarts(lib: Lib, s: Script)
    requires Correct(lib, s)
    ensures Text(s) != ""
    ensures var c := Text(s)[0]; 'a' <= c <= 'z' || c == '(' || c == '!' || c == ' ' || c == '\n' || c == '\r'
  {
    match s
    case Leaf(before, l, gap, lead, raw, tail) =>
      LeafStarts(l, gap, lead, raw, tail);
      hide LeafText, LeafFits;
    case Joined(a, _, _, _) => TextStarts(lib, a);
    case _ =>
  }

  lemma LeafStarts(l: ParsedLeaf, gap: string, lead: string, raw: string, tail: string)
    ensures var x := LeafText(l, gap, lead, raw, tail); x != "" && 'a' <= x[0] <= 'z'
  {
    hide Argument;
  }

  /** What follows is no operator of the `and` (or the `or`) chain. */
  lemma CloseIsNoOperator(after: string, t: string)
    requires IsBlanks(after)
    ensures RT.NoAnd(after + (")" + t)) && RT.NoOr(after + (")" + t))
  {
    hide DropBlanks, IsBlanks, P.NextAnd, P.NextOr;
    BlanksDrop(after, ")" + t);
    BlanksDrop("", ")" + t);
    assert "" + (")" + t) == ")" + t;
    RT.NothingAtClose(t);
  }

  lemma EndIsNoOperator(after: string)
    requires IsBlanks(after)
    ensures RT.NoAnd(after) && RT.NoOr(after)
  {
    BlanksDrop(after, "");
    assert after + "" == after;
    hide DropBlanks, IsBlanks;
  }

  function Linked(op: BinaryOp): P.AndOrDifference
    requires !op.Or?
  {
    if op.And? then P.And(op.and) else P.Subtract(DifferenceOperator.Minus)
  }

  /** An operator in front of an expression is taken as what it is. */
  lemma OperatorTaken(op: BinaryOp, y: string)
    requires y != "" && y[0] != '|' && y[0] != '&' && (IsWord(op) ==> WordEnds(y))
    ensures var s := OpText(op) + y;
            && !StartsBlank(s) && s[|OpText(op)|..] == y
            && (op.Or? ==> P.NextOr(s) == Some((P.Operator(op.or), |OpText(op)|)) && P.NextAnd(s) == None)
            && (!op.Or? ==> P.NextAnd(s) == Some((P.Operator(Linked(op)), |OpText(op)|)))
  {
    var s := OpText(op) + y;
    assert s[0] == OpText(op)[0] && s[|OpText(op)|] == y[0];
    match op
    case Or(LiteralOr) => assert P.WordNext("or", s);
    case And(LiteralAnd) => assert s[1] == 'n' && P.WordNext("and", s);
    case _ =>
  }

  lemma OrTaken(op: BinaryOp, st: St, before: string, y: string) returns (st1: St)
    requires op.Or? && IsBlanks(before) && st.rest == before + (OpText(op) + y)
    requires y != "" && y[0] != '|' && y[0] != '&' && (IsWord(op) ==> WordEnds(y))
    ensures P.ParseOr(st) == Ok(st1, P.Operator(op.or)) && RT.NoAnd(st.rest)
    ensures st1.off == st.off + |before| + |OpText(op)| && st1.rest == y && st1.errs == st.errs
  {
    hide OpText, IsWord, WordEnds, IsBlanks, StartsBlank, SkipBlanks, DropBlanks, P.NextOr, P.NextAnd;
    OperatorTaken(op, y);
    BlanksSkip(st, before, OpText(op) + y);
    BlanksDrop(before, OpText(op) + y);
    st1 := SkipBlanks(st).Advance(|OpText(op)|);
  }

  lemma AndTaken(op: BinaryOp, st: St, before: string, y: string) returns (st1: St)
    requires !op.Or? && IsBlanks(before) && st.rest == before + (OpText(op) + y)
    requires y != "" && y[0] != '|' && y[0] != '&' && (IsWord(op) ==> WordEnds(y))
    ensures P.ParseAnd(st) == Ok(st1, P.Operator(Linked(op)))
    ensures st1.off == st.off + |before| + |OpText(op)| && st1.rest == y && st1.errs == st.errs
  {
    hide OpText, IsWord, WordEnds, IsBlanks, StartsBlank, SkipBlanks, P.NextAnd;
    OperatorTaken(op, y);
    BlanksSkip(st, before, OpText(op) + y);
    st1 := SkipBlanks(st).Advance(|OpText(op)|);
  }

  lemma NotTaken(op: NotOperator, y: string)
    requires y != "" && (op == LiteralNot ==> WordEnds(y))
    ensures var s := NotSign(op) + y;
            && !StartsBlank(s) && s[|NotSign(op)|..] == y && NotSign(op) == NotText(op)
            && P.FirstName(s, P.SET_NAMES) == None && P.NextNot(s) == Some(op)
  {
    hide P.FirstName;
    var s := NotSign(op) + y;
    assert s[0] == NotSign(op)[0] && s[|NotSign(op)|] == y[0];
    assert op == LiteralNot ==> s[1] == 'o' && s[2] == 't';
    RT.NoName(s);
  }

  lemma NegatedReads(lib: Lib, op: NotOperator, st: St, before: string, y: string, st1: St, e: ParsedExpr)
    requires IsBlanks(before) && y != "" && (op == LiteralNot ==> WordEnds(y))
    requires st.rest == before + (NotSign(op) + y)
    requires var st2 := St(st.off + |before| + |NotSign(op)|, y, st.errs);
             P.ParseBasic(lib, st2) == Ok(st1, P.Valid(e))
    ensures P.ParseBasic(lib, st) == Ok(st1, P.Valid(Not(op, e)))
  {
    hide NotSign, WordEnds, IsBlanks, StartsBlank, SkipBlanks, P.FirstName, P.NextNot, Follows;
    NotTaken(op, y);
    BlanksSkip(st, before, NotSign(op) + y);
    assert SkipBlanks(st).Advance(|NotSign(op)|) == St(st.off + |before| + |NotSign(op)|, y, st.errs);
  }

  lemma EnclosedReads(lib: Lib, st: St, before: string, y: string, st1: St, st2: St, e: ParsedExpr)
    requires IsBlanks(before) && st.rest == before + ("(" + y)
    requires P.ParseOrs(lib, St(st.off + |before| + 1, y, st.errs)) == (st1, P.Valid(e))
    requires P.ExpectChar(st1, ')', ExpectedCloseParenthesis) == st2
    ensures P.ParseBasic(lib, st) == Ok(st2, P.Valid(Parens(e)))
  {
    hide IsBlanks, SkipBlanks, P.FirstName, P.NextNot, P.ExpectChar, P.ParseOrs, Follows;
    RT.OpenReads("(" + y, y);
    BlanksSkip(st, before, "(" + y);
    assert SkipBlanks(st).Advance(1) == St(st.off + |before| + 1, y, st.errs);
  }

  lemma SetReads(lib: Lib, l: ParsedLeaf, gap: string, lead: string, raw: string, tail: string, before: string, st: St,
                 t: string)
    returns (st1: St)
    requires IsBlanks(before) && IsBlanks(gap) && LeafFits(lib, l, lead, raw, tail)
    requires st.rest == before + (LeafText(l, gap, lead, raw, tail) + t)
    ensures P.ParseBasic(lib, st) == Ok(st1, P.Valid(Set(G.Placed(l, st.off + |before|, gap, lead, raw))))
    ensures st1.off == st.off + |before| + |LeafText(l, gap, lead, raw, tail)| && st1.rest == t && st1.errs == st.errs
  {
    hide IsBlanks, LeafFits, LeafText, G.Placed, SkipBlanks, P.FirstName, P.SetKeyword, P.ParseSet, RT.NameOf, Follows;
    var x := LeafText(l, gap, lead, raw, tail) + t;
    LeafStarts(l, gap, lead, raw, tail);
    BlanksSkip(st, before, x);
    var st2 := Past(st, |before|, x);
    st1 := LeafReads(lib, l, gap, lead, raw, tail, st2, t);
  }

  lemma TextAnd(s: Script, t: string)
    ensures s.Leaf? ==> Text(s) + t == s.before + (LeafText(s.leaf, s.gap, s.lead, s.raw, s.tail) + t)
    ensures s.Negated? ==> Text(s) + t == s.before + (NotSign(s.not) + (Text(s.inner) + t))
    ensures s.Enclosed? ==> Text(s) + t == s.before + ("(" + (Text(s.inner) + (s.after + (")" + t))))
    ensures s.Joined? ==> Text(s) + t == Text(s.left) + (s.before + (OpText(s.op) + (Text(s.right) + t)))
  {
    hide LeafText, NotSign, OpText;
    match s
    case Leaf(before, l, gap, lead, raw, tail) => Regroup(before, LeafText(l, gap, lead, raw, tail), "", "", t);
    case Negated(before, op, a) => Regroup(before, NotSign(op), Text(a), "", t);
    case Enclosed(before, a, after) =>
      Regroup(before, "(", Text(a), after + ")", t);
      Regroup(after, ")", "", "", t);
    case Joined(a, before, op, b) => Regroup(Text(a), before, OpText(op), Text(b), t);
  }

  lemma Regroup(a: string, b: string, c: string, d: string, t: string)
    ensures (a + b) + t == a + (b + t)
    ensures (a + (b + c)) + t == a + (b + (c + t))
    ensures (a + (b + (c + d))) + t == a + (b + (c + (d + t)))
  {
    assert (c + d) + t == c + (d + t);
    assert (b + (c + d)) + t == b + ((c + d) + t);
  }

  lemma FirstStays(x: string, t: string)
    requires x != ""
    ensures x + t != "" && (x + t)[0] == x[0] && (WordEnds(x) ==> WordEnds(x + t))
  {
  }

  lemma {:induction false} BasicReads(lib: Lib, s: Script, st: St, t: string) returns (st1: St)
    requires Correct(lib, s) && !s.Joined? && st.rest == Text(s) + t
    ensures P.ParseBasic(lib, st) == Ok(st1, P.Valid(Tree(s, st.off)))
    ensures st1.off == st.off + |Text(s)| && st1.rest == t && st1.errs == st.errs
    decreases s, 0
  {
    hide P.ParseBasic, P.ParseOrs, P.AndLoop, P.OrLoop, P.ExpectChar, LeafText, LeafFits, IsBlanks, WordEnds, NotSign,
         OpText, G.Placed, RT.NoAnd, RT.NoOr, Follows;
    TextAnd(s, t);
    match s
    case Leaf(before, l, gap, lead, raw, tail) =>
      st1 := SetReads(lib, l, gap, lead, raw, tail, before, st, t);
    case Negated(before, op, a) =>
      var y := Text(a) + t;
      TextStarts(lib, a);
      FirstStays(Text(a), t);
      st1 := BasicReads(lib, a, St(st.off + |before| + |NotSign(op)|, y, st.errs), t);
      NegatedReads(lib, op, st, before, y, st1, Tree(a, st.off + |before| + |NotSign(op)|));
    case Enclosed(before, a, after) =>
      var x := after + (")" + t);
      var y := Text(a) + x;
      CloseIsNoOperator(after, t);
      var st2 := OrsReads(lib, a, St(st.off + |before| + 1, y, st.errs), x);
      RT.LoopsStop(lib, st2, P.Valid(Tree(a, st.off + |before| + 1)));
      CharExpected(st2, after, ')', ExpectedCloseParenthesis, t);
      st1 := Past(st2, |after| + 1, t);
      EnclosedReads(lib, st, before, y, st2, st1, Tree(a, st.off + |before| + 1));
  }

  lemma {:induction false} AndsReads(lib: Lib, s: Script, st: St, t: string) returns (st1: St)
    requires Correct(lib, s) && !IsOr(s) && st.rest == Text(s) + t
    ensures P.ParseAnds(lib, st) == P.AndLoop(lib, st1, P.Valid(Tree(s, st.off)))
    ensures st1.off == st.off + |Text(s)| && st1.rest == t && st1.errs == st.errs
    decreases s, 1
  {
    if s.Joined? {
      st1 := AndChainReads(lib, s, st, t);
    } else {
      st1 := BasicReads(lib, s, st, t);
      hide P.ParseBasic, P.AndLoop, Correct, Text, Tree;
    }
  }

  lemma {:induction false} AndChainReads(lib: Lib, s: Script, st: St, t: string) returns (st1: St)
    requires Correct(lib, s) && s.Joined? && !s.op.Or? && st.rest == Text(s) + t
    ensures P.ParseAnds(lib, st) == P.AndLoop(lib, st1, P.Valid(Tree(s, st.off)))
    ensures st1.off == st.off + |Text(s)| && st1.rest == t && st1.errs == st.errs
    decreases s, 0
  {
    hide P.ParseAnds, P.ParseAnd, P.AndLoop, P.ParseBasic, IsBlanks, WordEnds, IsWord, OpText, Linked, Follows;
    var y := Text(s.right) + t;
    TextAnd(s, t);
    var st2 := AndsReads(lib, s.left, st, s.before + (OpText(s.op) + y));
    TextStarts(lib, s.right);
    FirstStays(Text(s.right), t);
    var st3 := AndTaken(s.op, st2, s.before, y);
    st1 := BasicReads(lib, s.right, st3, t);
    AndTurn(lib, s.op, st2, st3, st1, Tree(s.left, st.off), Tree(s.right, st3.off));
  }

  lemma AndTurn(lib: Lib, op: BinaryOp, st: St, st1: St, st2: St, a: ParsedExpr, b: ParsedExpr)
    requires !op.Or? && P.ParseAnd(st) == Ok(st1, P.Operator(Linked(op)))
    requires P.ParseBasic(lib, st1) == Ok(st2, P.Valid(b))
    ensures P.AndLoop(lib, st, P.Valid(a)) == P.AndLoop(lib, st2, P.Valid(Node(op, a, b)))
  {
    hide P.ParseAnd, P.ParseBasic;
  }

  lemma {:induction false} OrsReads(lib: Lib, s: Script, st: St, t: string) returns (st1: St)
    requires Correct(lib, s) && st.rest == Text(s) + t && RT.NoAnd(t)
    ensures P.ParseOrs(lib, st) == P.OrLoop(lib, st1, P.Valid(Tree(s, st.off)))
    ensures st1.off == st.off + |Text(s)| && st1.rest == t && st1.errs == st.errs
    decreases s, 2
  {
    if IsOr(s) {
      st1 := OrChainReads(lib, s, st, t);
    } else {
      st1 := AndsReads(lib, s, st, t);
      RT.LoopsStop(lib, st1, P.Valid(Tree(s, st.off)));
      hide P.ParseAnds, P.AndLoop, P.OrLoop, Correct, Text, Tree, RT.NoAnd;
    }
  }

  /** The last operator of an `or` chain: where it is taken, and what is left then. */
  lemma LinkTaken(lib: Lib, s: Script, st: St, t: string) returns (st1: St, st2: St)
    requires Correct(lib, s) && IsOr(s) && st.rest == Text(s) + t
    ensures st1.off == st.off + |Text(s.left)| && st.rest == Text(s.left) + st1.rest && st1.errs == st.errs
    ensures P.ParseOr(st1) == Ok(st2, P.Operator(s.op.or)) && RT.NoAnd(st1.rest)
    ensures st2.rest == Text(s.right) + t && st2.off + |Text(s.right)| == st.off + |Text(s)| && st2.errs == st.errs
    ensures st2.off == st.off + |Text(s.left)| + |s.before| + |OpText(s.op)|
  {
    hide P.ParseOr, IsBlanks, WordEnds, IsWord, OpText, RT.NoAnd, Follows;
    var y := Text(s.right) + t;
    TextAnd(s, t);
    TextStarts(lib, s.right);
    FirstStays(Text(s.right), t);
    st1 := St(st.off + |Text(s.left)|, s.before + (OpText(s.op) + y), st.errs);
    st2 := OrTaken(s.op, st1, s.before, y);
  }

  lemma {:induction false} OrChainReads(lib: Lib, s: Script, st: St, t: string) returns (st1: St)
    requires Correct(lib, s) && IsOr(s) && st.rest == Text(s) + t && RT.NoAnd(t)
    ensures P.ParseOrs(lib, st) == P.OrLoop(lib, st1, P.Valid(Tree(s, st.off)))
    ensures st1.off == st.off + |Text(s)| && st1.rest == t && st1.errs == st.errs
    decreases s, 1
  {
    hide P.ParseOrs, P.ParseOr, P.OrLoop, P.ParseAnds, P.AndLoop, IsBlanks, WordEnds, IsWord, OpText, RT.NoAnd, Follows;
    var st2, st3 := LinkTaken(lib, s, st, t);
    var st2' := OrsReads(lib, s.left, st, st2.rest);
    st1 := AndsReads(lib, s.right, st3, t);
    RT.LoopsStop(lib, st1, P.Valid(Tree(s.right, st3.off)));
    OrTurn(lib, s.op, st2, st3, st1, Tree(s.left, st.off), Tree(s.right, st3.off));
  }

  lemma OrTurn(lib: Lib, op: BinaryOp, st: St, st1: St, st2: St, a: ParsedExpr, b: ParsedExpr)
    requires op.Or? && P.ParseOr(st) == Ok(st1, P.Operator(op.or))
    requires P.ParseAnds(lib, st1) == (st2, P.Valid(b))
    ensures P.OrLoop(lib, st, P.Valid(a)) == P.OrLoop(lib, st2, P.Valid(Node(op, a, b)))
  {
    hide P.ParseOr, P.ParseAnds;
  }

  /** Whatever the grammar allows, with any blanks between its words and behind them, is read
      to its end without an error, to the tree it stands for, spans and all. */
  lemma GrammarReads(lib: Lib, s: Script, end: string)
    requires Correct(lib, s) && IsBlanks(end)
    ensures P.Parse(lib, Text(s) + end) == (St(|Text(s) + end|, "", []), P.Valid(Tree(s, 0)))
  {
    hide P.ParseOrs, P.OrLoop, P.AndLoop, Correct, Text, Tree, IsBlanks, SkipBlanks, RT.NoAnd, RT.NoOr;
    EndIsNoOperator(end);
    var st := OrsReads(lib, s, St(0, Text(s) + end, []), end);
    RT.LoopsStop(lib, st, P.Valid(Tree(s, 0)));
    assert end + "" == end;
    BlanksSkip(st, end, "");
  }
}
