/** Reading back a printed matcher: when it gives the same matcher, and what it costs when not. */
module MatcherRoundTrip {
  import opened Wrappers
  import opened FiltersetSyntax
  import opened ParserState
  import opened MatcherText
  import opened FiltersetPrinter
  import opened FiltersetParser

  // ----- blanks -----

  function DropBlanks(s: string): (r: string)
    ensures |r| <= |s|
    decreases |s|
  {
    var n := BlankLength(s);
    if n == 0 then s else DropBlanks(s[n..])
  }

  /** The stream once everything but `t` has been read, with the errors `es` added. */
  function After(st: St, t: string, es: seq<Diagnostic>): St
    requires |t| <= |st.rest|
  {
    St(st.off + |st.rest| - |t|, t, st.errs + es)
  }

  lemma {:induction false} SkipBlanksDrops(st: St)
    ensures SkipBlanks(st) == St(st.off + |st.rest| - |DropBlanks(st.rest)|, DropBlanks(st.rest), st.errs)
    decreases |st.rest|
  {
    var n := BlankLength(st.rest);
    if n > 0 {
      SkipBlanksDrops(st.Advance(n));
    }
  }

  lemma DropBlanksNone(s: string)
    requires BlankLength(s) == 0
    ensures DropBlanks(s) == s
  {
  }

  lemma DropOneSpace(s: string)
    requires BlankLength(s) == 0
    ensures DropBlanks(" " + s) == s
  {
    assert (" " + s)[1..] == s;
    DropBlanksNone(s);
  }

  // ----- matchers -----

  /** Reading the printed form stops at its end: only a trailing backslash in a regex,
      which would escape the closing slash, can prevent that. */
  predicate Closed(m: NameMatcher) {
    m.Regex? ==> !EndsInBackslash(m.regex)
  }

  lemma TextReads(v: string, st: St, t: string) returns (es: seq<Diagnostic>)
    requires st.rest == EscapeText(v) + t && EndsText(t)
    ensures ParseText(st) == (After(st, t, es), if HasQuote(v) then None else Some(v))
    ensures es == [] <==> !HasQuote(v) && v != ""
  {
    hide ReadText, EscapeText, Extend, HasQuote;
    var es0 := TextRoundTrip(v, st, Some(""), t);
    ExtendEmpty(v);
    if v == "" {
      var d := Diagnostic(InvalidString, Span(st.off + |st.rest| - |t|, 0));
      es := es0 + [d];
      assert st.errs + es == st.errs + es0 + [d];
    } else {
      es := es0;
    }
  }

  lemma ExtendEmpty(v: string)
    ensures Extend(Some(""), v) == if HasQuote(v) then None else Some(v)
    ensures v == "" ==> !HasQuote(v)
  {
    assert "" + v == v;
  }

  lemma EqualReads(v: string, implicit: bool, st: St, t: string) returns (es: seq<Diagnostic>)
    requires st.rest == EscapeText(v) + t && EndsText(t)
    ensures ParseEqual(st, implicit) == (After(st, t, es), if HasQuote(v) then None else Some(Equal(v, implicit)))
    ensures es == [] <==> !HasQuote(v) && v != ""
  {
    es := TextReads(v, st, t);
  }

  lemma ContainsReads(v: string, implicit: bool, st: St, t: string) returns (es: seq<Diagnostic>)
    requires st.rest == EscapeText(v) + t && EndsText(t)
    ensures ParseContains(st, implicit) == (After(st, t, es), if HasQuote(v) then None else Some(Contains(v, implicit)))
    ensures es == [] <==> !HasQuote(v) && v != ""
  {
    es := TextReads(v, st, t);
  }

  lemma GlobReads(lib: Lib, v: string, implicit: bool, st: St, t: string) returns (es: seq<Diagnostic>)
    requires st.rest == EscapeText(v) + t && EndsText(t)
    ensures ParseGlob(lib, st, implicit) ==
            (After(st, t, es), if HasQuote(v) || !lib.validGlob(v) then None else Some(Glob(v, implicit)))
    ensures es == [] <==> !HasQuote(v) && v != "" && lib.validGlob(v)
  {
    hide ParseText, EscapeText, HasQuote;
    var es0 := TextReads(v, st, t);
    es := es0;
    if !HasQuote(v) && !lib.validGlob(v) {
      var d := Diagnostic(InvalidGlob, Span(st.off, |st.rest| - |t|));
      es := es0 + [d];
      assert st.errs + es == st.errs + es0 + [d];
    }
  }

  lemma DefaultReads(lib: Lib, d: DefaultMatcher, v: string, st: St, t: string)
    returns (r: Option<NameMatcher>, es: seq<Diagnostic>)
    requires st.rest == EscapeText(v) + t && EndsText(t)
    ensures ParseDefaultMatcher(lib, d, st) == (After(st, t, es), r)
    ensures r == if HasQuote(v) || (d == DefaultGlob && !lib.validGlob(v)) then None else Some(ImplicitMatcher(d, v))
    ensures r.Some? ==> (es == [] <==> v != "")
  {
    match d
    case DefaultEqual => es := EqualReads(v, true, st, t); r := ParseEqual(st, true).1;
    case DefaultContains => es := ContainsReads(v, true, st, t); r := ParseContains(st, true).1;
    case DefaultGlob => es := GlobReads(lib, v, true, st, t); r := ParseGlob(lib, st, true).1;
  }

  lemma RegexReads(lib: Lib, r: string, st: St, t: string) returns (m: Option<NameMatcher>, es: seq<Diagnostic>)
    requires !EndsInBackslash(r) && st.rest == PrintRegex(r, false) + ("/" + t)
    ensures ParseRegex(lib, st) == (After(st, t, es), m)
    ensures m == (if lib.validRegex(ReadBack(r)) then Some(Regex(ReadBack(r))) else None)
    ensures m.Some? ==> es == []
  {
    RegexReadBack(r, "/" + t);
    var n := |PrintRegex(r, false)|;
    assert st.rest[n..] == "/" + t;
    assert ("/" + t)[1..] == t;
    es := if lib.validRegex(ReadBack(r)) then [] else [Diagnostic(InvalidRegex, Span(st.off, n))];
    m := ParseRegex(lib, st).1;
    assert st.errs + [] == st.errs;
  }

  lemma PlainStart(v: string, t: string)
    requires t != "" && EndsText(t) && !StartsOperator(v)
    ensures var s := EscapeText(v) + t;
            s != "" && BlankLength(s) == 0 && s[0] != '/' && s[0] != '#' && s[0] != '=' && s[0] != '~'
  {
    if v != "" {
      assert (EscapeText(v) + t)[0] == EscapeChar(v[0])[0];
    } else {
      assert EscapeText(v) + t == t;
    }
  }

  /** An argument that starts like neither a blank nor an operator is read as it stands. */
  lemma SetMatcherPlain(lib: Lib, d: DefaultMatcher, v: string, st: St, t: string)
    requires st.rest == EscapeText(v) + t && EndsText(t) && t != "" && !StartsOperator(v)
    ensures SetMatcher(lib, d, st) == ParseDefaultMatcher(lib, d, st)
  {
    PlainStart(v, t);
    hide EscapeText, ParseDefaultMatcher, ParseRegex, ParseGlob, ParseEqual, ParseContains, BlankLength;
  }

  lemma ExplicitReads(lib: Lib, d: DefaultMatcher, c: char, v: string, st: St, t: string)
    returns (r: Option<NameMatcher>, es: seq<Diagnostic>)
    requires c == '=' || c == '~' || c == '#'
    requires st.rest == [c] + (EscapeText(v) + t) && EndsText(t)
    ensures SetMatcher(lib, d, st) == (After(st, t, es), r)
    ensures r == if HasQuote(v) || (c == '#' && !lib.validGlob(v)) then None
                 else Some(if c == '=' then Equal(v, false)
                           else if c == '~' then Contains(v, false)
                           else Glob(v, false))
    ensures r.Some? ==> (es == [] <==> v != "")
  {
    hide ParseEqual, ParseContains, ParseGlob, EscapeText, HasQuote;
    var st1 := st.Advance(1);
    assert st1.rest == EscapeText(v) + t;
    if c == '=' {
      es := EqualReads(v, false, st1, t);
    } else if c == '~' {
      es := ContainsReads(v, false, st1, t);
    } else {
      es := GlobReads(lib, v, false, st1, t);
    }
    r := SetMatcher(lib, d, st).1;
  }

  lemma EscapeTextOperator(v: string, t: string)
    requires StartsOperator(v)
    ensures EscapeText(v) + t == [v[0]] + (EscapeText(v[1..]) + t)
  {
    assert EscapeChar(v[0]) == [v[0]];
  }

  /** An argument without an operator of its own: it is read as the default matcher,
      unless its first character is a blank (dropped) or an operator (obeyed). */
  lemma {:induction false} ImplicitReads(lib: Lib, d: DefaultMatcher, v: string, st: St, t: string)
    returns (r: Option<NameMatcher>, es: seq<Diagnostic>)
    requires st.rest == EscapeText(v) + t && EndsText(t) && t != ""
    ensures SetMatcher(lib, d, st) == (After(st, t, es), r)
    ensures !StartsOperator(v) ==>
              && r == (if HasQuote(v) || (d == DefaultGlob && !lib.validGlob(v)) then None
                       else Some(ImplicitMatcher(d, v)))
              && (r.Some? ==> (es == [] <==> v != ""))
    ensures StartsOperator(v) && r.Some? ==> |ArgumentText(r.value)| < |v|
    decreases v
  {
    hide SetMatcher, EscapeText, HasQuote, ParseDefaultMatcher;
    if !StartsOperator(v) {
      SetMatcherPlain(lib, d, v, st, t);
      r, es := DefaultReads(lib, d, v, st, t);
    } else {
      EscapeTextOperator(v, t);
      if v[0] == ' ' {
        var st1 := st.Advance(1);
        assert st1.rest == EscapeText(v[1..]) + t;
        SetMatcherSkips(lib, d, st);
        r, es := ImplicitReads(lib, d, v[1..], st1, t);
        if !StartsOperator(v[1..]) && r.Some? {
          assert ArgumentText(r.value) == v[1..];
        }
      } else {
        r, es := ExplicitReads(lib, d, v[0], v[1..], st, t);
      }
    }
  }

  lemma SetMatcherSkips(lib: Lib, d: DefaultMatcher, st: St)
    requires st.rest != "" && st.rest[0] == ' '
    ensures SetMatcher(lib, d, st) == SetMatcher(lib, d, st.Advance(1))
  {
    assert SkipBlanks(st) == SkipBlanks(st.Advance(1));
  }

  lemma PrintMatcherShape(m: NameMatcher, t: string)
    ensures m.Regex? ==> PrintMatcher(m) + t == "/" + (PrintRegex(m.regex, false) + ("/" + t))
    ensures IsImplicit(m) ==> PrintMatcher(m) == EscapeText(ArgumentText(m))
    ensures !m.Regex? && !m.implicit ==>
              PrintMatcher(m) + t == [if m.Equal? then '=' else if m.Contains? then '~' else '#']
                                     + (EscapeText(ArgumentText(m)) + t)
  {
    hide EscapeText, PrintRegex;
    match m
    case Regex(r) => CloseAssociates(PrintRegex(r, false), t);
    case Equal(v, _) => assert ("=" + EscapeText(v)) + t == ['='] + (EscapeText(v) + t);
    case Contains(v, _) => assert ("~" + EscapeText(v)) + t == ['~'] + (EscapeText(v) + t);
    case Glob(v, _) => assert ("#" + EscapeText(v)) + t == ['#'] + (EscapeText(v) + t);
  }

  lemma CloseAssociates(p: string, t: string)
    ensures ("/" + p + "/") + t == "/" + (p + ("/" + t))
  {
  }

  lemma RegexMatcherReads(lib: Lib, d: DefaultMatcher, x: string, st: St, t: string)
    returns (r: Option<NameMatcher>, es: seq<Diagnostic>)
    requires !EndsInBackslash(x) && st.rest == "/" + (PrintRegex(x, false) + ("/" + t))
    ensures SetMatcher(lib, d, st) == (After(st, t, es), r)
    ensures r == Some(Regex(x)) <==> lib.validRegex(x) && !HasEscapedSlash(x, false)
    ensures r == Some(Regex(x)) ==> es == []
  {
    hide ParseRegex, PrintRegex, HasEscapedSlash, ReadBack;
    var st1 := st.Advance(1);
    assert st1.rest == PrintRegex(x, false) + ("/" + t);
    r, es := RegexReads(lib, x, st1, t);
    ReadBackFixed(x);
  }

  /** A printed matcher followed by `)` or `,` is read to its end; the same matcher
      comes back exactly when it is printable, and then silently unless it is empty. */
  lemma SetMatcherReads(lib: Lib, d: DefaultMatcher, m: NameMatcher, st: St, t: string)
    returns (r: Option<NameMatcher>, es: seq<Diagnostic>)
    requires Closed(m) && st.rest == PrintMatcher(m) + t && EndsText(t) && t != ""
    ensures SetMatcher(lib, d, st) == (After(st, t, es), r)
    ensures r == Some(m) <==> Printable(lib, d, m)
    ensures r == Some(m) ==> (es == [] <==> m.Regex? || ArgumentText(m) != "")
  {
    hide SetMatcher, EscapeText, HasQuote, PrintMatcher, PrintRegex, HasEscapedSlash, EndsInBackslash;
    PrintMatcherShape(m, t);
    if m.Regex? {
      r, es := RegexMatcherReads(lib, d, m.regex, st, t);
    } else if m.implicit {
      r, es := ImplicitReads(lib, d, ArgumentText(m), st, t);
    } else {
      var c := if m.Equal? then '=' else if m.Contains? then '~' else '#';
      r, es := ExplicitReads(lib, d, c, ArgumentText(m), st, t);
    }
  }
}
