/** What is said about a set whose argument is not one that it can have. */
module ArgumentMistakes {
  import opened Wrappers
  import opened FiltersetSyntax
  import opened ParserState
  import MatcherText
  import opened G = FiltersetGrammar
  import opened GrammarReads
  import GrammarWritten
  import opened ParseMistakes
  import P = FiltersetParser
  import RT = ExpressionRoundTrip

  // ----- an input that is one set -----

  /** After its name, the set is read by its own parser. */
  lemma SetAlone(lib: Lib, before: string, l: ParsedLeaf, y: string, st: St, leaf: Option<ParsedLeaf>)
    requires IsBlanks(before) && y != "" && (y[0] == '(' || y[0] == ' ' || y[0] == '\n' || y[0] == '\r')
    requires P.ParseArgument(lib, RT.NameOf(l), |before|, St(|before| + |Name(l)|, y, [])) == (st, leaf)
    ensures P.ParseBasic(lib, St(0, before + (Name(l) + y), [])) == Ok(st, P.LeafResult(leaf))
  {
    hide IsBlanks, StartsBlank, SkipBlanks, Name, P.SetKeyword, P.FirstName, P.ParseArgument, RT.NameOf, Follows;
    var st0 := St(0, before + (Name(l) + y), []);
    NameIs(l);
    NameStarts(l, y);
    NameReads(RT.NameOf(l), y);
    BlanksSkip(st0, before, Name(l) + y);
    assert (Name(l) + y)[|Name(l)|..] == y;
    assert P.SetKeyword(RT.NameOf(l)) <= Name(l) + y;
  }

  lemma NameStarts(l: ParsedLeaf, y: string)
    ensures !StartsBlank(Name(l) + y)
  {
  }

  lemma GapStarts(gap: string, y: string)
    requires IsBlanks(gap)
    ensures var x := gap + ("(" + y); x != "" && (x[0] == '(' || x[0] == ' ' || x[0] == '\n' || x[0] == '\r')
  {
  }

  function Written(before: string, l: ParsedLeaf, gap: string, arg: string): string {
    before + (Name(l) + (gap + ("(" + arg)))
  }

  /** An input that is a set and blanks, with one error reported. */
  lemma SetReported(lib: Lib, before: string, l: ParsedLeaf, gap: string, y: string, st: St, leaf: Option<ParsedLeaf>,
                    d: Diagnostic, end: string)
    requires IsBlanks(before) && IsBlanks(gap) && IsBlanks(end)
    requires P.ParseArgument(lib, RT.NameOf(l), |before|, St(|before| + |Name(l)|, gap + ("(" + y), [])) == (st, leaf)
    requires st.rest == end && st.errs == [d]
    ensures P.Parse(lib, Written(before, l, gap, y)) == (St(|Written(before, l, gap, y)|, "", [d]), P.LeafResult(leaf))
  {
    hide IsBlanks, Name, P.ParseArgument, P.ParseBasic, P.Parse, RT.NameOf, P.LeafResult;
    GapStarts(gap, y);
    SetAlone(lib, before, l, gap + ("(" + y), st, leaf);
    BasicAlone(lib, before + (Name(l) + (gap + ("(" + y))), st, P.LeafResult(leaf), end);
  }

  // ----- sets without argument -----

  lemma NullaryMistakes(n: P.SetName, start: nat, raw: string, st: St, st2: St, st3: St, st5: St)
    requires start <= st.off && (n.DefaultName? || n.AllName? || n.NoneName?)
    requires P.ExpectChar(st, '(', ExpectedOpenParenthesis) == st2 && TakeTill(st2, ')') == st3
    requires st2.rest == raw + st3.rest && P.Trim(raw) != ""
    requires P.ExpectChar(st3.Report(UnexpectedArgument, Span(st2.off, |raw|)), ')', ExpectedCloseParenthesis) == st5
    ensures start <= st5.off
    ensures P.ParseNullary(n, start, st)
            == (st5, Some(if n.DefaultName? then Default(Span(start, st5.off - start))
                          else if n.AllName? then All else Nothing))
  {
    hide P.ExpectChar, TakeTill, P.Trim;
    assert st2.rest[..|st2.rest| - |st3.rest|] == raw;
  }

  lemma TrimmedToNothing(raw: string)
    requires P.Trim(raw) == ""
    ensures AllWhitespace(raw)
  {
    hide P.Trim, Padded, AllWhitespace;
    GrammarWritten.TrimPads(raw);
    GrammarWritten.PaddedNothing(raw);
  }

  lemma NullaryReported(n: P.SetName, start: nat, st: St, gap: string, raw: string, t: string)
    returns (st1: St, v: ParsedLeaf)
    requires start <= st.off && IsBlanks(gap) && ')' !in raw && !AllWhitespace(raw)
    requires n.DefaultName? || n.AllName? || n.NoneName?
    requires st.rest == gap + ("(" + (raw + (")" + t)))
    ensures P.ParseNullary(n, start, st) == (st1, Some(v))
    ensures st1.off == st.off + |gap| + |raw| + 2 && st1.rest == t
    ensures st1.errs == st.errs + [Diagnostic(UnexpectedArgument, Span(st.off + |gap| + 1, |raw|))]
    ensures v == if n.DefaultName? then Default(Span(start, st1.off - start)) else if n.AllName? then All else Nothing
  {
    hide IsBlanks, AllWhitespace, P.ExpectChar, TakeTill, P.Trim, P.ParseNullary, Follows;
    if P.Trim(raw) == "" {
      TrimmedToNothing(raw);
    }
    var x := ")" + t;
    CharExpected(st, gap, '(', ExpectedOpenParenthesis, raw + x);
    var st2 := Past(st, |gap| + 1, raw + x);
    TakenTill(st2, raw, ')', t);
    var st3 := Past(st2, |raw|, x);
    var st4 := st3.Report(UnexpectedArgument, Span(st2.off, |raw|));
    CloseExpected(st4, t);
    st1 := Past(st4, 1, t);
    NullaryMistakes(n, start, raw, st, st2, st3, st1);
    v := if n.DefaultName? then Default(Span(start, st1.off - start)) else if n.AllName? then All else Nothing;
  }

  /** `all(…)`, `none(…)` and `default(…)`: an argument is reported, all of it, and ignored. */
  lemma ArgumentReported(lib: Lib, before: string, l: ParsedLeaf, gap: string, raw: string, end: string)
    requires IsBlanks(before) && IsBlanks(gap) && IsBlanks(end)
    requires (l.Default? || l.All? || l.Nothing?) && ')' !in raw && !AllWhitespace(raw)
    ensures var input := Written(before, l, gap, raw + (")" + end));
            P.Parse(lib, input)
            == (St(|input|, "", [Diagnostic(UnexpectedArgument, Span(|before| + |Name(l)| + |gap| + 1, |raw|))]),
                P.Valid(Set(G.Placed(l, |before|, gap, "", raw))))
  {
    hide IsBlanks, AllWhitespace, Name, P.ParseNullary, P.Parse, Written, Follows;
    var st := St(|before| + |Name(l)|, gap + ("(" + (raw + (")" + end))), []);
    var st1, v := NullaryReported(RT.NameOf(l), |before|, st, gap, raw, end);
    var d := Diagnostic(UnexpectedArgument, Span(|before| + |Name(l)| + |gap| + 1, |raw|));
    assert st1.errs == [d];
    assert v == G.Placed(l, |before|, gap, "", raw);
    SetReported(lib, before, l, gap, raw + (")" + end), st1, Some(v), d, end);
  }

  // ----- platforms -----

  lemma PlatformMistakes(v: string, st: St, st2: St, st3: St, st4: St, st5: St)
    requires P.ExpectChar(st, '(', ExpectedOpenParenthesis) == st2
    requires SkipBlanks(st2) == st3 && P.ParseText(st3) == (st4, Some(v))
    requires P.Trim(v) != "host" && P.Trim(v) != "target"
    requires P.RecoverComma(st4) == st4 && P.ExpectChar(st4, ')', ExpectedCloseParenthesis) == st5
    ensures st2.off <= st4.off
    ensures P.ParsePlatform(st) == (st5.Report(InvalidPlatformArgument, Span(st2.off, st4.off - st2.off)), None)
  {
    hide P.ExpectChar, SkipBlanks, P.ParseText, P.Trim, P.RecoverComma;
  }

  lemma PlatformReported(v: string, st: St, gap: string, lead: string, raw: string, t: string) returns (st1: St)
    requires IsBlanks(gap) && IsBlanks(lead) && WritesText(raw, v) && v != "" && !StartsBlank(raw)
    requires !Padded(v, "host") && !Padded(v, "target")
    requires st.rest == gap + ("(" + (lead + (raw + (")" + t))))
    ensures P.ParsePlatform(st) == (st1, None)
    ensures st1.off == st.off + |gap| + |lead| + |raw| + 2 && st1.rest == t
    ensures st1.errs == st.errs + [Diagnostic(InvalidPlatformArgument, Span(st.off + |gap| + 1, |lead| + |raw|))]
  {
    hide SkipBlanks, P.ParseText, P.ExpectChar, P.RecoverComma, P.ParsePlatform, P.Trim, IsBlanks, WritesText,
         StartsBlank,
         Padded, Follows;
    GrammarWritten.TrimPads(v);
    RawStarts(raw, v, ")" + t);
    var y := lead + (raw + (")" + t));
    CharExpected(st, gap, '(', ExpectedOpenParenthesis, y);
    var st2 := Past(st, |gap| + 1, y);
    var st3, st4, st5 := PlatformTextReads(v, st2, lead, raw, t);
    PlatformMistakes(v, st, st2, st3, st4, st5);
    st1 := st5.Report(InvalidPlatformArgument, Span(st2.off, st4.off - st2.off));
  }

  /** `platform(…)` takes `host` and `target`, and nothing else. */
  lemma UnknownPlatformReported(lib: Lib, before: string, gap: string, lead: string, raw: string, v: string,
                                end: string)
    requires IsBlanks(before) && IsBlanks(gap) && IsBlanks(lead) && IsBlanks(end)
    requires WritesText(raw, v) && v != "" && !StartsBlank(raw) && !Padded(v, "host") && !Padded(v, "target")
    ensures var input := Written(before, PlatformIs(Host, NO_SPAN), gap, lead + (raw + (")" + end)));
            P.Parse(lib, input)
            == (St(|input|, "", [Diagnostic(InvalidPlatformArgument, Span(|before| + 9 + |gap|, |lead| + |raw|))]),
                P.ExprResult.Error)
  {
    hide IsBlanks, WritesText, StartsBlank, Padded, P.ParsePlatform, P.Parse, Written, Follows;
    var l := PlatformIs(Host, NO_SPAN);
    var y := lead + (raw + (")" + end));
    var st := St(|before| + 8, gap + ("(" + y), []);
    var st1 := PlatformReported(v, st, gap, lead, raw, end);
    var d := Diagnostic(InvalidPlatformArgument, Span(|before| + 9 + |gap|, |lead| + |raw|));
    assert st1.errs == [d];
    SetReported(lib, before, l, gap, y, st1, None, d, end);
  }

  // ----- matchers -----

  lemma UnaryRuns(lib: Lib, p: Predicate, st: St, st2: St, st3: St, st4: St, st5: St, m: Option<NameMatcher>)
    requires P.ExpectChar(st, '(', ExpectedOpenParenthesis) == st2
    requires P.SetMatcher(lib, DefaultFor(p), st2) == (st3, m) && P.RecoverComma(st3) == st4
    requires P.ExpectChar(st4, ')', ExpectedCloseParenthesis) == st5
    ensures st2.off <= st3.off
    ensures P.ParseUnary(lib, p, st)
            == (st5, if m.Some? then Some(Matching(p, m.value, Span(st2.off, st3.off - st2.off))) else None)
  {
    hide P.SetMatcher, P.ExpectChar, P.RecoverComma;
  }

  /** An argument that is read with an error, and its parenthesis. */
  lemma UnaryReported(lib: Lib, p: Predicate, m: Option<NameMatcher>, st: St, gap: string, y: string, st3: St,
                      t: string)
    returns (st1: St)
    requires IsBlanks(gap) && st.rest == gap + ("(" + y) && st3.rest == ")" + t
    requires P.SetMatcher(lib, DefaultFor(p), St(st.off + |gap| + 1, y, st.errs)) == (st3, m)
    requires st.off + |gap| + 1 <= st3.off
    ensures P.ParseUnary(lib, p, st)
            == (st1, if m.Some? then Some(Matching(p, m.value, Span(st.off + |gap| + 1, st3.off - st.off - |gap| - 1)))
                     else None)
    ensures st1 == St(st3.off + 1, t, st3.errs)
  {
    hide IsBlanks, P.ExpectChar, P.SetMatcher, P.RecoverComma, P.ParseUnary, Follows;
    CharExpected(st, gap, '(', ExpectedOpenParenthesis, y);
    CloseExpected(st3, t);
    st1 := Past(st3, 1, t);
    UnaryRuns(lib, p, st, St(st.off + |gap| + 1, y, st.errs), st3, st3, st1, m);
  }

  /** A regex that the regex library refuses. */
  lemma BadRegex(lib: Lib, d: DefaultMatcher, st: St, lead: string, raw: string, r: string, x: string) returns (st1: St)
    requires IsBlanks(lead) && WritesRegex(raw, r) && !lib.validRegex(r)
    requires st.rest == lead + ("/" + (raw + ("/" + x)))
    ensures P.SetMatcher(lib, d, st) == (st1, None)
    ensures st1.off == st.off + |lead| + |raw| + 2 && st1.rest == x
    ensures st1.errs == st.errs + [Diagnostic(InvalidRegex, Span(st.off + |lead| + 1, |raw|))]
  {
    hide IsBlanks, SkipBlanks, WritesRegex, P.ParseRegex, P.ParseDefaultMatcher, P.ParseGlob, P.ParseEqual,
         P.ParseContains, Follows;
    BlanksSkip(st, lead, "/" + (raw + ("/" + x)));
    var st2 := St(st.off + |lead| + 1, raw + ("/" + x), st.errs);
    assert SkipBlanks(st).Advance(1) == st2;
    st1 := BadRegexBody(lib, st2, raw, r, x);
  }

  lemma BadRegexBody(lib: Lib, st: St, raw: string, r: string, x: string) returns (st1: St)
    requires WritesRegex(raw, r) && !lib.validRegex(r) && st.rest == raw + ("/" + x)
    ensures P.ParseRegex(lib, st) == (st1, None)
    ensures st1.off == st.off + |raw| + 1 && st1.rest == x
    ensures st1.errs == st.errs + [Diagnostic(InvalidRegex, Span(st.off, |raw|))]
  {
    hide WritesRegex, MatcherText.ReadRegex, P.SkipSlash, TakeTill, Follows;
    RegexReads(raw, r, x);
    var st2 := st.Advance(|raw|).Report(InvalidRegex, Span(st.off, |raw|));
    assert st2.rest == "/" + x;
    SlashSkips(st2, x);
    st1 := Past(st2, 1, x);
  }

  /** It is reported, without its slashes, and costs the result. */
  lemma RegexReported(lib: Lib, before: string, p: Predicate, gap: string, lead: string, raw: string, r: string,
                      end: string)
    requires IsBlanks(before) && IsBlanks(gap) && IsBlanks(lead) && IsBlanks(end)
    requires WritesRegex(raw, r) && !lib.validRegex(r)
    ensures var l := Matching(p, Regex(r), NO_SPAN);
            var input := Written(before, l, gap, lead + ("/" + (raw + ("/" + (")" + end)))));
            P.Parse(lib, input)
            == (St(|input|, "", [Diagnostic(InvalidRegex, Span(|before| + |Name(l)| + |gap| + |lead| + 2, |raw|))]),
                P.ExprResult.Error)
  {
    hide IsBlanks, WritesRegex, Name, P.SetMatcher, P.ParseUnary, P.Parse, Written, Follows;
    var l := Matching(p, Regex(r), NO_SPAN);
    var y := lead + ("/" + (raw + ("/" + (")" + end))));
    var st := St(|before| + |Name(l)|, gap + ("(" + y), []);
    var st3 := BadRegex(lib, DefaultFor(p), St(st.off + |gap| + 1, y, []), lead, raw, r, ")" + end);
    var st1 := UnaryReported(lib, p, None, st, gap, y, st3, end);
    var d := Diagnostic(InvalidRegex, Span(|before| + |Name(l)| + |gap| + |lead| + 2, |raw|));
    assert st3.errs == [d];
    SetReported(lib, before, l, gap, y, st1, None, d, end);
  }

  /** A glob that the glob library refuses, after `#`. */
  lemma BadGlob(lib: Lib, d: DefaultMatcher, st: St, lead: string, raw: string, v: string, x: string) returns (st1: St)
    requires IsBlanks(lead) && WritesText(raw, v) && v != "" && !lib.validGlob(v)
    requires st.rest == lead + ("#" + (raw + x)) && MatcherText.EndsText(x)
    ensures P.SetMatcher(lib, d, st) == (st1, None)
    ensures st1.off == st.off + |lead| + 1 + |raw| && st1.rest == x
    ensures st1.errs == st.errs + [Diagnostic(InvalidGlob, Span(st.off + |lead| + 1, |raw|))]
  {
    hide IsBlanks, SkipBlanks, WritesText, P.ParseText, P.ParseRegex, P.ParseDefaultMatcher, P.ParseEqual,
         P.ParseContains, MatcherText.EndsText, Follows;
    BlanksSkip(st, lead, "#" + (raw + x));
    var st2 := St(st.off + |lead| + 1, raw + x, st.errs);
    assert SkipBlanks(st).Advance(1) == st2;
    ArgumentTextReads(raw, v, st2, x);
    st1 := Past(st2, |raw|, x).Report(InvalidGlob, Span(st2.off, |raw|));
  }

  lemma GlobReported(lib: Lib, before: string, p: Predicate, gap: string, lead: string, raw: string, v: string,
                     end: string)
    requires IsBlanks(before) && IsBlanks(gap) && IsBlanks(lead) && IsBlanks(end)
    requires WritesText(raw, v) && v != "" && !lib.validGlob(v)
    ensures var l := Matching(p, Glob(v, false), NO_SPAN);
            var input := Written(before, l, gap, lead + ("#" + (raw + (")" + end))));
            P.Parse(lib, input)
            == (St(|input|, "", [Diagnostic(InvalidGlob, Span(|before| + |Name(l)| + |gap| + |lead| + 2, |raw|))]),
                P.ExprResult.Error)
  {
    hide IsBlanks, WritesText, Name, P.SetMatcher, P.ParseUnary, P.Parse, Written, Follows;
    var l := Matching(p, Glob(v, false), NO_SPAN);
    var y := lead + ("#" + (raw + (")" + end)));
    var st := St(|before| + |Name(l)|, gap + ("(" + y), []);
    var st3 := BadGlob(lib, DefaultFor(p), St(st.off + |gap| + 1, y, []), lead, raw, v, ")" + end);
    var st1 := UnaryReported(lib, p, None, st, gap, y, st3, end);
    var d := Diagnostic(InvalidGlob, Span(|before| + |Name(l)| + |gap| + |lead| + 2, |raw|));
    assert st3.errs == [d];
    SetReported(lib, before, l, gap, y, st1, None, d, end);
  }

  // ----- more than one argument, and none -----

  lemma CommaTaken(st: St, tail: string, junk: string, t: string) returns (st1: St)
    requires IsBlanks(tail) && ')' !in junk && st.rest == tail + ("," + (junk + (")" + t)))
    ensures P.RecoverComma(st) == st1
    ensures st1.off == st.off + |tail| + 1 + |junk| && st1.rest == ")" + t
    ensures st1.errs == st.errs + [Diagnostic(UnexpectedComma, Span(st.off, 0))]
  {
    BlanksHaveNoClose(tail);
    BlanksSkip(st, tail, "," + (junk + (")" + t)));
    var st2 := st.Report(UnexpectedComma, Span(st.off, 0));
    var x := tail + ("," + junk);
    assert st2.rest == x + (")" + t) by {
      Regroup(tail, ",", junk, "", ")" + t);
    }
    TakenTill(st2, x, ')', t);
    st1 := Past(st2, |x|, ")" + t);
    hide IsBlanks, SkipBlanks, TakeTill;
  }

  lemma {:induction false} BlanksHaveNoClose(s: string)
    requires IsBlanks(s)
    ensures ')' !in s
  {
    if s != "" {
      var k := if s[0] == '\r' then 2 else 1;
      BlanksHaveNoClose(s[k..]);
      assert s == s[..k] + s[k..];
    }
  }

  /** A comma behind an argument is reported; what follows it, up to the parenthesis, is not
      read, and the set is the one without it. */
  lemma CommaReported(lib: Lib, before: string, p: Predicate, m: NameMatcher, gap: string, lead: string, raw: string,
                      tail: string, junk: string, end: string)
    requires IsBlanks(before) && IsBlanks(gap) && IsBlanks(lead) && IsBlanks(tail) && IsBlanks(end)
    requires MatcherFits(lib, p, m, raw, tail) && ')' !in junk
    ensures var l := Matching(p, m, NO_SPAN);
            var input := Written(before, l, gap, lead + (Argument(l, raw) + (tail + ("," + (junk + (")" + end))))));
            var comma := |before| + |Name(l)| + |gap| + 1 + |lead| + |Argument(l, raw)|;
            P.Parse(lib, input)
            == (St(|input|, "", [Diagnostic(UnexpectedComma, Span(comma, 0))]),
                P.Valid(Set(G.Placed(l, |before|, gap, lead, raw))))
  {
    hide IsBlanks, MatcherFits, Name, Argument, G.Placed, P.ParseUnary, P.Parse, Written, Follows;
    var l := Matching(p, m, NO_SPAN);
    var y := lead + (Argument(l, raw) + (tail + ("," + (junk + (")" + end)))));
    var st := St(|before| + |Name(l)|, gap + ("(" + y), []);
    var st1, v, d := CommaUnary(lib, p, m, |before|, st, gap, lead, raw, tail, junk, end);
    SetReported(lib, before, l, gap, y, st1, Some(v), d, end);
  }

  lemma CommaUnary(lib: Lib, p: Predicate, m: NameMatcher, start: nat, st: St, gap: string, lead: string, raw: string,
                   tail: string, junk: string, t: string)
    returns (st1: St, v: ParsedLeaf, d: Diagnostic)
    requires IsBlanks(gap) && IsBlanks(lead) && IsBlanks(tail) && MatcherFits(lib, p, m, raw, tail) && ')' !in junk
    requires st.errs == []
    requires st.rest == gap + ("(" + (lead + (Argument(Matching(p, m, NO_SPAN), raw)
                                              + (tail + ("," + (junk + (")" + t)))))))
    requires start + |Name(Matching(p, m, NO_SPAN))| == st.off
    ensures P.ParseUnary(lib, p, st) == (st1, Some(v)) && v == G.Placed(Matching(p, m, NO_SPAN), start, gap, lead, raw)
    ensures st1.rest == t && st1.errs == [d] && d.kind == UnexpectedComma && d.span.length == 0
    ensures d.span.offset == st.off + |gap| + 1 + |lead| + |Argument(Matching(p, m, NO_SPAN), raw)|
  {
    hide IsBlanks, MatcherFits, Argument, Name, P.SetMatcher, P.ExpectChar, P.RecoverComma, P.ParseUnary, Follows;
    var x := tail + ("," + (junk + (")" + t)));
    var y := lead + (Argument(Matching(p, m, NO_SPAN), raw) + x);
    CharExpected(st, gap, '(', ExpectedOpenParenthesis, y);
    CommaEnds(lib, p, m, raw, tail, junk + (")" + t));
    var st2 := Past(st, |gap| + 1, y);
    var st3 := MatcherReads(lib, p, m, st2, lead, raw, x);
    var st4 := CommaTaken(st3, tail, junk, t);
    CloseExpected(st4, t);
    st1 := Past(st4, 1, t);
    UnaryRuns(lib, p, st, st2, st3, st4, st1, Some(m));
    v := Matching(p, m, Span(st2.off, st3.off - st2.off));
    d := Diagnostic(UnexpectedComma, Span(st3.off, 0));
  }

  lemma CommaEnds(lib: Lib, p: Predicate, m: NameMatcher, raw: string, tail: string, x: string)
    requires MatcherFits(lib, p, m, raw, tail)
    ensures MatcherFits(lib, p, m, raw, "") && (m.Regex? || MatcherText.EndsText(tail + ("," + x)))
  {
    hide WritesText, WritesRegex;
  }

  lemma EmptyReads(st: St, t: string) returns (st1: St)
    requires st.rest == ")" + t
    ensures P.ParseText(st) == (st1, Some(""))
    ensures st1 == St(st.off, ")" + t, st1.errs) && st1.errs == st.errs + [Diagnostic(InvalidString, Span(st.off, 0))]
  {
    EndReads(st, Some(""));
    st1 := st.Report(InvalidString, Span(st.off, 0));
  }

  /** An empty text is reported where it would stand; the set is read all the same, if the
      glob library has nothing against it. */
  lemma EmptyReported(lib: Lib, before: string, p: Predicate, m: NameMatcher, gap: string, lead: string, end: string)
    requires IsBlanks(before) && IsBlanks(gap) && IsBlanks(lead) && IsBlanks(end)
    requires !m.Regex? && Value(m) == "" && (m.Glob? ==> lib.validGlob("")) && (m.implicit ==> Implied(p, m))
    ensures var l := Matching(p, m, NO_SPAN);
            var input := Written(before, l, gap, lead + (Argument(l, "") + (")" + end)));
            var at := |before| + |Name(l)| + |gap| + 1 + |lead| + |Argument(l, "")|;
            P.Parse(lib, input)
            == (St(|input|, "", [Diagnostic(InvalidString, Span(at, 0))]),
                P.Valid(Set(G.Placed(l, |before|, gap, lead, ""))))
  {
    hide IsBlanks, Name, P.SetMatcher, P.ParseUnary, P.Parse, Written, Follows;
    var l := Matching(p, m, NO_SPAN);
    var y := lead + (Argument(l, "") + (")" + end));
    var st := St(|before| + |Name(l)|, gap + ("(" + y), []);
    var st3 := EmptyMatcher(lib, p, m, St(st.off + |gap| + 1, y, []), lead, end);
    var st1 := UnaryReported(lib, p, Some(m), st, gap, y, st3, end);
    var d := Diagnostic(InvalidString, Span(|before| + |Name(l)| + |gap| + 1 + |lead| + |Argument(l, "")|, 0));
    assert st3.errs == [d];
    SetReported(lib, before, l, gap, y, st1, Some(G.Placed(l, |before|, gap, lead, "")), d, end);
  }

  lemma EmptyMatcher(lib: Lib, p: Predicate, m: NameMatcher, st: St, lead: string, t: string) returns (st1: St)
    requires IsBlanks(lead) && !m.Regex? && Value(m) == "" && (m.Glob? ==> lib.validGlob(""))
    requires m.implicit ==> Implied(p, m)
    requires st.rest == lead + (Argument(Matching(p, m, NO_SPAN), "") + (")" + t))
    ensures P.SetMatcher(lib, DefaultFor(p), st) == (st1, Some(m))
    ensures st1.off == st.off + |lead| + |Argument(Matching(p, m, NO_SPAN), "")| && st1.rest == ")" + t
    ensures st1.errs == st.errs + [Diagnostic(InvalidString, Span(st1.off, 0))]
  {
    hide IsBlanks, SkipBlanks, P.ParseText, P.ParseRegex, Follows;
    var arg := Argument(Matching(p, m, NO_SPAN), "");
    BlanksSkip(st, lead, arg + (")" + t));
    var st2 := St(st.off + |lead| + |arg|, ")" + t, st.errs);
    assert SkipBlanks(st).rest[|arg|..] == ")" + t;
    st1 := EmptyReads(st2, t);
  }

  // ----- escapes -----

  /** What stands behind a backslash is no escape. */
  predicate NoEscape(z: string) {
    z == "" || (z[0] != 'n' && z[0] != 'r' && z[0] != 't' && z[0] != 'b' && z[0] != 'f' && z[0] != '\\' && z[0] != '/'
                && z[0] != ')' && z[0] != ',' && z[0] != 'u')
  }

  lemma NotTaken(z: string)
    requires NoEscape(z)
    ensures MatcherText.Escape(z).None?
  {
    if z != "" {
      NoUnicode(z);
    }
    hide MatcherText.UnicodeEscape;
  }

  lemma {:induction false} NoneStays(st: St)
    ensures MatcherText.ReadText(st, None).1 == None
    decreases |st.rest|
  {
    hide MatcherText.Escape;
    if !MatcherText.EndsText(st.rest) {
      var after := st.Advance(1);
      if st.rest[0] != '\\' {
        NoneStays(after);
      } else if MatcherText.Escape(after.rest).Some? {
        NoneStays(after.Advance(MatcherText.Escape(after.rest).value.1));
      } else {
        var d := MatcherText.BadEscape(st.off, after.rest);
        NoneStays(after.Report(d.kind, d.span));
      }
    }
  }

  /** The two characters from the backslash on, or what there is of them. */
  function EscapeError(off: nat, z: string): Diagnostic {
    Diagnostic(InvalidEscapeCharacter, Span(off, if |z| >= 2 then 2 else |z|))
  }

  lemma BadEscapeText(st: St, raw: string, v: string, z: string)
    requires WritesText(raw, v) && NoEscape(z) && st.rest == raw + ("\\" + z)
    ensures P.ParseText(st).1 == None && st.errs + [EscapeError(st.off + |raw|, z)] <= P.ParseText(st).0.errs
  {
    hide WritesText, NoEscape, MatcherText.ReadText;
    TextReadsOn(raw, v, st, "", "\\" + z);
    var st1 := Past(st, |raw|, "\\" + z);
    NotTaken(z);
    var d := EscapeError(st1.off, z);
    var st2 := St(st1.off + 1, z, st.errs + [d]);
    MatcherText.ReadBadEscape(st1, Some("" + v), z);
    NoneStays(st2);
    assert Follows(st2, MatcherText.ReadText(st2, None).0);
  }

  /** Any matcher but a regex, with a bad escape in its text. */
  lemma BadEscapeMatcher(lib: Lib, p: Predicate, m: NameMatcher, st: St, lead: string, raw: string, z: string)
    returns (st1: St)
    requires IsBlanks(lead) && !m.Regex? && WritesText(raw, Value(m)) && NoEscape(z)
    requires m.implicit ==> Implied(p, m) && (raw != "" ==> PlainStart(raw))
    requires st.rest == lead + (Argument(Matching(p, m, NO_SPAN), raw) + ("\\" + z))
    ensures P.SetMatcher(lib, DefaultFor(p), st) == (st1, None)
    ensures st.errs + [EscapeError(st.off + |lead| + |Argument(Matching(p, m, NO_SPAN), raw)|, z)] <= st1.errs
  {
    hide IsBlanks, SkipBlanks, StartsBlank, WritesText, NoEscape, PlainStart, P.SetMatcher, P.ParseText, EscapeError,
         Follows;
    var x := "\\" + z;
    EscapedStarts(p, m, raw, x);
    BlanksSkip(st, lead, Argument(Matching(p, m, NO_SPAN), raw) + x);
    if m.implicit {
      st1 := BadEscapeImplicit(lib, p, m, st, raw, z);
    } else {
      var c := if m.Equal? then '=' else if m.Contains? then '~' else '#';
      CharShape(c, raw, x);
      st1 := BadEscapeExplicit(lib, DefaultFor(p), st, c, raw, Value(m), z);
    }
  }

  lemma BadEscapeExplicit(lib: Lib, d: DefaultMatcher, st: St, c: char, raw: string, v: string, z: string)
    returns (st1: St)
    requires (c == '=' || c == '~' || c == '#') && WritesText(raw, v) && NoEscape(z)
    requires SkipBlanks(st).rest == [c] + (raw + ("\\" + z))
    ensures P.SetMatcher(lib, d, st) == (st1, None)
    ensures SkipBlanks(st).errs + [EscapeError(SkipBlanks(st).off + 1 + |raw|, z)] <= st1.errs
  {
    hide SkipBlanks, WritesText, NoEscape, P.ParseText, P.ParseRegex, P.ParseDefaultMatcher, EscapeError, Follows;
    var st2 := SkipBlanks(st).Advance(1);
    assert st2.rest == raw + ("\\" + z);
    BadEscapeText(st2, raw, v, z);
    st1 := P.ParseText(st2).0;
    assert SkipBlanks(st).rest[0] == c;
  }

  lemma BadEscapeImplicit(lib: Lib, p: Predicate, m: NameMatcher, st: St, raw: string, z: string) returns (st1: St)
    requires !m.Regex? && m.implicit && Implied(p, m) && WritesText(raw, Value(m)) && NoEscape(z)
    requires raw != "" ==> PlainStart(raw)
    requires SkipBlanks(st).rest == raw + ("\\" + z)
    ensures P.SetMatcher(lib, DefaultFor(p), st) == (st1, None)
    ensures SkipBlanks(st).errs + [EscapeError(SkipBlanks(st).off + |raw|, z)] <= st1.errs
  {
    hide SkipBlanks, StartsBlank, WritesText, NoEscape, P.ParseText, P.ParseRegex, EscapeError, Follows;
    var st2 := SkipBlanks(st);
    BadEscapeText(st2, raw, Value(m), z);
    st1 := P.ParseText(st2).0;
    assert st2.rest[0] == if raw == "" then '\\' else raw[0];
  }

  predicate PlainStart(raw: string)
    requires raw != ""
  {
    !StartsBlank(raw) && raw[0] != '/' && raw[0] != '#' && raw[0] != '=' && raw[0] != '~'
  }

  lemma EscapedStarts(p: Predicate, m: NameMatcher, raw: string, x: string)
    requires !m.Regex? && x != "" && x[0] == '\\' && (m.implicit && raw != "" ==> PlainStart(raw))
    ensures !StartsBlank(Argument(Matching(p, m, NO_SPAN), raw) + x)
  {
    if raw == "" {
      assert raw + x == x;
    }
  }

  lemma UnaryRefused(lib: Lib, p: Predicate, st: St, st2: St, st3: St) returns (st1: St)
    requires P.ExpectChar(st, '(', ExpectedOpenParenthesis) == st2
    requires P.SetMatcher(lib, DefaultFor(p), st2) == (st3, None)
    ensures P.ParseUnary(lib, p, st) == (st1, None) && st3.errs <= st1.errs
  {
    hide P.SetMatcher, P.ExpectChar, P.RecoverComma;
    var st4 := P.RecoverComma(st3);
    st1 := P.ExpectChar(st4, ')', ExpectedCloseParenthesis);
    assert Follows(st3, st4) && Follows(st4, st1);
  }

  lemma EscapeUnary(lib: Lib, p: Predicate, m: NameMatcher, st: St, gap: string, lead: string, raw: string, z: string)
    returns (st1: St, d: Diagnostic)
    requires IsBlanks(gap) && IsBlanks(lead) && NoEscape(z) && !m.Regex? && WritesText(raw, Value(m))
    requires m.implicit ==> Implied(p, m) && (raw != "" ==> PlainStart(raw))
    requires st.rest == gap + ("(" + (lead + (Argument(Matching(p, m, NO_SPAN), raw) + ("\\" + z))))
    ensures P.ParseUnary(lib, p, st) == (st1, None) && st.errs + [d] <= st1.errs
    ensures d == EscapeError(st.off + |gap| + 1 + |lead| + |Argument(Matching(p, m, NO_SPAN), raw)|, z)
  {
    hide IsBlanks, NoEscape, WritesText, Argument, Implied, PlainStart, P.ExpectChar, P.SetMatcher, P.ParseUnary,
         EscapeError, Follows;
    var y := lead + (Argument(Matching(p, m, NO_SPAN), raw) + ("\\" + z));
    CharExpected(st, gap, '(', ExpectedOpenParenthesis, y);
    var st2 := Past(st, |gap| + 1, y);
    var st3 := BadEscapeMatcher(lib, p, m, st2, lead, raw, z);
    st1 := UnaryRefused(lib, p, st, st2, st3);
    d := EscapeError(st2.off + |lead| + |Argument(Matching(p, m, NO_SPAN), raw)|, z);
  }

  /** A backslash that starts no escape is reported, with the character behind it, before
      anything else, and costs the result. */
  lemma EscapeReported(lib: Lib, before: string, p: Predicate, m: NameMatcher, gap: string, lead: string, raw: string,
                       z: string)
    returns (d: Diagnostic)
    requires IsBlanks(before) && IsBlanks(gap) && IsBlanks(lead) && NoEscape(z)
    requires !m.Regex? && WritesText(raw, Value(m))
    requires m.implicit ==> Implied(p, m) && (raw != "" ==> PlainStart(raw))
    ensures var l := Matching(p, m, NO_SPAN);
            var (st, r) := P.Parse(lib, Written(before, l, gap, lead + (Argument(l, raw) + ("\\" + z))));
            r == P.ExprResult.Error && [d] <= st.errs
    ensures var l := Matching(p, m, NO_SPAN);
            d == EscapeError(|before| + |Name(l)| + |gap| + 1 + |lead| + |Argument(l, raw)|, z)
  {
    hide IsBlanks, Name, Argument, NoEscape, WritesText, P.ParseUnary, P.ParseBasic, P.Parse, EscapeError, Follows,
         Implied,
         PlainStart;
    var l := Matching(p, m, NO_SPAN);
    var y := lead + (Argument(l, raw) + ("\\" + z));
    var st := St(|before| + |Name(l)|, gap + ("(" + y), []);
    GapStarts(gap, y);
    var st1;
    st1, d := EscapeUnary(lib, p, m, st, gap, lead, raw, z);
    SetAlone(lib, before, l, gap + ("(" + y), st1, None);
    assert [] + [d] == [d];
    ErrorFirst(lib, before + (Name(l) + (gap + ("(" + y))), st1, [d]);
  }

  /** A basic expression without a result leaves none, and its errors come first. */
  lemma ErrorFirst(lib: Lib, input: string, st: St, ds: seq<Diagnostic>)
    requires P.ParseBasic(lib, St(0, input, [])) == Ok(st, P.ExprResult.Error) && ds <= st.errs
    ensures P.Parse(lib, input).1 == P.ExprResult.Error && ds <= P.Parse(lib, input).0.errs
  {
    hide P.ParseBasic, P.AndLoop, P.OrLoop, SkipBlanks;
    var st0 := St(0, input, []);
    ErrorStays(lib, st);
    var st1 := P.AndLoop(lib, st, P.ExprResult.Error).0;
    assert P.ParseAnds(lib, st0) == (st1, P.ExprResult.Error);
    ErrorStaysOr(lib, st1);
    var st2 := P.OrLoop(lib, st1, P.ExprResult.Error).0;
    assert P.ParseOrs(lib, st0) == (st2, P.ExprResult.Error);
    assert Follows(st, st1) && Follows(st1, st2);
  }
}
