/** A filterset with a quote in a name: it can be read, and what it is printed as cannot. */
module QuotedNames {
  import opened Wrappers
  import opened FiltersetSyntax
  import opened ParserState
  import opened MatcherText
  import opened FiltersetPrinter
  import opened FiltersetParser
  import opened MatcherRoundTrip
  import opened ExpressionRoundTrip

  function Quoted(quote: char, span: Span): ParsedExpr {
    ParsedExpr.Set(Matching(Test, Contains([quote], true), span))
  }

  lemma QuoteReads(lib: Lib, quote: char, st: St)
    requires (quote == '\'' || quote == '"') && st.rest == [quote] + ")"
    ensures SetMatcher(lib, DefaultContains, st) == (After(st, ")", []), Some(Contains([quote], true)))
  {
    var st1 := St(st.off + 1, ")", st.errs);
    assert st.rest[0] == quote;
    ReadPlain(st, Some(""), quote, ")");
    ReadTextEnd(st1, Some([quote]));
    hide ReadText;
    assert "" + [quote] == [quote];
    assert Append(Some(""), quote) == Some([quote]);
    assert [quote] + "" == [quote] && st.errs + [] == st.errs;
    NoBlankAhead(st);
  }

  lemma NoBlankAhead(st: St)
    requires st.rest != "" && st.rest[0] != ' ' && st.rest[0] != '\n' && st.rest[0] != '\r'
    ensures SkipBlanks(st) == st
  {
  }

  lemma QuotedLeafReads(lib: Lib, quote: char, st: St)
    requires (quote == '\'' || quote == '"') && st.rest == "(" + ([quote] + ")")
    ensures ParseUnary(lib, Test, st) ==
            (After(st, "", []), Some(Matching(Test, Contains([quote], true), Span(st.off + 1, 1))))
  {
    var st2 := St(st.off + 1, [quote] + ")", st.errs);
    var st3 := After(st2, ")", []);
    QuoteReads(lib, quote, st2);
    ExpectCharReads(st, '(', ExpectedOpenParenthesis, [quote] + ")");
    ExpectCharReads(st3, ')', ExpectedCloseParenthesis, "");
    hide SetMatcher, ExpectChar;
    assert st3.rest[0] == ')';
    NoBlankAhead(st3);
    assert RecoverComma(st3) == st3;
    assert st.errs + [] == st.errs;
  }

  lemma InputSplit(x: string)
    ensures "test(" + x == SetKeyword(Takes(Test)) + ("(" + x)
    ensures SkipBlanks(St(0, "test(" + x, [])) == St(0, "test(" + x, [])
    ensures St(0, "test(" + x, []).Advance(4) == St(4, "(" + x, [])
  {
  }

  lemma NothingAtEnd(lib: Lib, off: nat, errs: seq<Diagnostic>, v: ExprResult)
    ensures var st := St(off, "", errs);
            SkipBlanks(st) == st && AndLoop(lib, st, v) == (st, v) && OrLoop(lib, st, v) == (st, v)
  {
    LoopsStop(lib, St(off, "", errs), v);
    assert NoAnd("") && NoOr("");
    hide AndLoop, OrLoop;
  }

  /** `test(')` is read without error, as a test whose name has a quote in it. */
  lemma QuotedNameReads(lib: Lib, quote: char)
    requires quote == '\'' || quote == '"'
    ensures Parse(lib, "test(" + ([quote] + ")")) == (St(7, "", []), Valid(Quoted(quote, Span(5, 1))))
  {
    hide ParseBasic, AndLoop, OrLoop, FirstName, SkipBlanks, ParseUnary, SetKeyword;
    var x := [quote] + ")";
    var st := St(0, "test(" + x, []);
    InputSplit(x);
    NameReads(Takes(Test), x);
    QuotedLeafReads(lib, quote, St(4, "(" + x, []));
    QuotedBasicReads(lib, quote, st);
    NothingAtEnd(lib, 7, [], Valid(Quoted(quote, Span(5, 1))));
    assert ParseAnds(lib, st) == (St(7, "", []), Valid(Quoted(quote, Span(5, 1))));
    assert ParseOrs(lib, st) == (St(7, "", []), Valid(Quoted(quote, Span(5, 1))));
  }

  lemma QuotedBasicReads(lib: Lib, quote: char, st: St)
    requires SkipBlanks(st) == st && FirstName(st.rest, SET_NAMES) == Some(Takes(Test)) && |st.rest| >= 4
    requires ParseUnary(lib, Test, st.Advance(4)) ==
             (St(7, "", []), Some(Matching(Test, Contains([quote], true), Span(5, 1))))
    ensures ParseBasic(lib, st) == Ok(St(7, "", []), Valid(Quoted(quote, Span(5, 1))))
  {
    hide FirstName, ParseUnary, SkipBlanks;
  }

  /** What a filterset with a quote in a name parses to is printed with an escape that the
      parser does not know, so it is not what reading the printed form gives. */
  lemma QuotesDoNotRoundTrip(lib: Lib, quote: char)
    requires quote == '\'' || quote == '"'
    ensures var e := Quoted(quote, Span(5, 1));
            && Parse(lib, "test(" + ([quote] + ")")) == (St(7, "", []), Valid(e))
            && NormalForm(e) && !Same(Parse(lib, Print(e)).1, e)
  {
    var e := Quoted(quote, Span(5, 1));
    QuotedNameReads(lib, quote);
    PrintParse(lib, e);
    hide Parse, Print;
    assert quote in [quote];
    assert Leaves(e) == [e.leaf] && e.leaf in [e.leaf];
    assert !LeafPrintable(lib, e.leaf);
  }
}
