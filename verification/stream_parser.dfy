/** The parser as it runs: an object that moves along its input, steps back to
    checkpoints, and pushes errors. Every method does what its function says. */
module StreamParser {
  import opened Wrappers
  import opened FiltersetSyntax
  import opened FiltersetPrinter
  import Stream = ParserState
  import Text = MatcherText
  import Spec = FiltersetParser

  type Result = Spec.ExprResult

  /** `acc` extended by a run of ordinary characters. */
  function AppendRun(acc: Option<string>, s: string): Option<string> {
    if acc.Some? then Some(acc.value + s) else None
  }

  lemma AppendRunStep(acc: Option<string>, s: string, k: nat)
    requires k < |s|
    ensures Text.Append(AppendRun(acc, s[..k]), s[k]) == AppendRun(acc, s[..k + 1])
  {
    assert s[..k + 1] == s[..k] + [s[k]];
    if acc.Some? {
      assert acc.value + s[..k + 1] == acc.value + s[..k] + [s[k]];
    }
  }

  lemma ReadOne(st: Stream.St, acc: Option<string>)
    requires st.rest != "" && st.rest[0] != '\\' && !Text.EndsText(st.rest)
    ensures Text.ReadText(st, acc) == Text.ReadText(st.Advance(1), Text.Append(acc, st.rest[0]))
  {
  }

  /** Reading a run of ordinary characters at once or one by one comes to the same. */
  lemma {:induction false} ReadRun(st: Stream.St, acc: Option<string>, n: nat)
    requires n <= |st.rest|
    requires forall i | 0 <= i < n :: st.rest[i] != '\\' && st.rest[i] != ')' && st.rest[i] != ','
    ensures Text.ReadText(st, acc) == Text.ReadText(st.Advance(n), AppendRun(acc, st.rest[..n]))
  {
    hide Text.ReadText;
    if n == 0 {
      assert st.Advance(0) == st;
      assert acc.Some? ==> acc.value + st.rest[..0] == acc.value;
    } else {
      ReadRun(st, acc, n - 1);
      AppendRunStep(acc, st.rest, n - 1);
      ReadOne(st.Advance(n - 1), AppendRun(acc, st.rest[..n - 1]));
      assert st.Advance(n - 1).Advance(1) == st.Advance(n);
    }
  }

  /** Reading one character or one escaped slash of a regex body. */
  lemma ReadRegexTurn(s: string, text: string, n: nat)
    requires s != "" && s[0] != '/'
    ensures var k := if Text.IsEscapedSlash(s) then 2 else 1;
            var c := if k == 2 then '/' else s[0];
            var r, r' := Text.ReadRegex(s), Text.ReadRegex(s[k..]);
            text + r.0 == (text + [c]) + r'.0 && n + r.1 == n + k + r'.1
  {
    var k := if Text.IsEscapedSlash(s) then 2 else 1;
    Associate(text, if k == 2 then '/' else s[0], Text.ReadRegex(s[k..]).0);
  }

  lemma Associate(a: string, c: char, b: string)
    ensures a + ([c] + b) == (a + [c]) + b
  {
  }

  lemma ReadRegexEnds(s: string, text: string)
    ensures s == "" || s[0] == '/' ==> text + Text.ReadRegex(s).0 == text && Text.ReadRegex(s).1 == 0
    ensures "" + Text.ReadRegex(s).0 == Text.ReadRegex(s).0
  {
  }

  function FoldAnds(acc: Result, ops: seq<(Spec.Token<Spec.AndOrDifference>, Result)>): Result {
    if ops == [] then acc
    else var last := ops[|ops| - 1]; Spec.CombineAnd(last.0, FoldAnds(acc, ops[..|ops| - 1]), last.1)
  }

  function FoldOrs(acc: Result, ops: seq<(Spec.Token<OrOperator>, Result)>): Result {
    if ops == [] then acc
    else var last := ops[|ops| - 1]; Spec.CombineOr(last.0, FoldOrs(acc, ops[..|ops| - 1]), last.1)
  }

  method FoldAndList(first: Result, ops: seq<(Spec.Token<Spec.AndOrDifference>, Result)>) returns (r: Result)
    ensures r == FoldAnds(first, ops)
  {
    r := first;
    for i := 0 to |ops|
      invariant r == FoldAnds(first, ops[..i])
    {
      assert ops[..i + 1][..i] == ops[..i];
      r := Spec.CombineAnd(ops[i].0, r, ops[i].1);
    }
    assert ops[..|ops|] == ops;
  }

  method FoldOrList(first: Result, ops: seq<(Spec.Token<OrOperator>, Result)>) returns (r: Result)
    ensures r == FoldOrs(first, ops)
  {
    r := first;
    for i := 0 to |ops|
      invariant r == FoldOrs(first, ops[..i])
    {
      assert ops[..i + 1][..i] == ops[..i];
      r := Spec.CombineOr(ops[i].0, r, ops[i].1);
    }
    assert ops[..|ops|] == ops;
  }

  class Parser {
    const lib: Lib
    var off: nat
    var rest: string
    var errors: seq<Diagnostic>

    constructor (lib: Lib, input: string)
      ensures this.lib == lib && Now() == Stream.St(0, input, [])
    {
      this.lib := lib;
      off, rest, errors := 0, input, [];
    }

    ghost function Now(): Stream.St
      reads this
    {
      Stream.St(off, rest, errors)
    }

    method Advance(n: nat)
      requires n <= |rest|
      modifies this
      ensures Now() == old(Now()).Advance(n)
    {
      off, rest := off + n, rest[n..];
    }

    method Report(kind: ErrorKind, span: Span)
      modifies this
      ensures Now() == old(Now()).Report(kind, span)
    {
      errors := errors + [Diagnostic(kind, span)];
    }

    method Reset(off: nat, rest: string)
      modifies this
      ensures Now() == Stream.St(off, rest, old(errors))
    {
      this.off, this.rest := off, rest;
    }

    // ----- tokens -----

    method SkipBlanks()
      modifies this
      ensures Now() == Stream.SkipBlanks(old(Now()))
    {
      while Stream.BlankLength(rest) > 0
        invariant Stream.SkipBlanks(Now()) == Stream.SkipBlanks(old(Now()))
        decreases |rest|
      {
        Advance(Stream.BlankLength(rest));
      }
    }

    method TakeTill(stop: char)
      modifies this
      ensures Now() == Stream.TakeTill(old(Now()), stop)
    {
      while rest != "" && rest[0] != stop
        invariant Stream.TakeTill(Now(), stop) == Stream.TakeTill(old(Now()), stop)
        decreases |rest|
      {
        Advance(1);
      }
    }

    /** Blanks and then `c`; steps back to in front of the blanks when `c` is not there. */
    method TakeChar(c: char) returns (found: bool)
      modifies this
      ensures var st := Stream.SkipBlanks(old(Now()));
              && (found <==> st.rest != "" && st.rest[0] == c)
              && Now() == if found then st.Advance(1) else old(Now())
    {
      var start, text := off, rest;
      SkipBlanks();
      found := rest != "" && rest[0] == c;
      if found {
        Advance(1);
      } else {
        Reset(start, text);
      }
    }

    method ExpectChar(c: char, kind: ErrorKind)
      modifies this
      ensures Now() == Spec.ExpectChar(old(Now()), c, kind)
    {
      var found := TakeChar(c);
      if !found {
        Report(kind, Span(off, 0));
      }
    }

    // ----- matchers -----

    /** Reads fragment by fragment: a run of ordinary characters, or one escape. */
    method ReadText() returns (text: Option<string>)
      modifies this
      ensures (Now(), text) == Text.ReadText(old(Now()), Some(""))
    {
      text := Some("");
      while !Text.EndsText(rest)
        invariant Text.ReadText(Now(), text) == Text.ReadText(old(Now()), Some(""))
        decreases |rest|
      {
        if rest[0] == '\\' {
          var c := ReadEscape();
          text := if text.Some? && c.Some? then Some(text.value + [c.value]) else None;
        } else {
          var n := 1;
          while n < |rest| && rest[n] != '\\' && rest[n] != ')' && rest[n] != ','
            invariant 1 <= n <= |rest|
            invariant forall i | 0 <= i < n :: rest[i] != '\\' && rest[i] != ')' && rest[i] != ','
          {
            n := n + 1;
          }
          ReadRun(Now(), text, n);
          text := AppendRun(text, rest[..n]);
          Advance(n);
        }
      }
    }

    method ReadEscape() returns (c: Option<char>)
      requires rest != "" && rest[0] == '\\'
      modifies this
      ensures |rest| < |old(rest)|
      ensures forall acc :: Text.ReadText(old(Now()), acc) ==
                            Text.ReadText(Now(), if acc.Some? && c.Some? then Some(acc.value + [c.value]) else None)
    {
      Advance(1);
      match Text.Escape(rest)
      case Some((e, n)) =>
        Advance(n);
        c := Some(e);
      case None =>
        var d := Text.BadEscape(off - 1, rest);
        Report(d.kind, d.span);
        c := None;
    }

    method ParseText() returns (text: Option<string>)
      modifies this
      ensures (Now(), text) == Spec.ParseText(old(Now()))
    {
      text := ReadText();
      if text == Some("") {
        Report(InvalidString, Span(off, 0));
      }
    }

    /** Reads a regex body, and says whether a closing slash follows it. */
    method ReadRegex() returns (text: string, closed: bool)
      modifies this
      ensures var (t, n) := Text.ReadRegex(old(rest));
              text == t && Now() == old(Now()).Advance(n) && closed == (n < |old(rest)|)
    {
      text := "";
      ghost var n := 0;
      hide Text.ReadRegex;
      ReadRegexEnds(rest, text);
      while rest != "" && rest[0] != '/'
        invariant n <= |old(rest)| && Now() == old(Now()).Advance(n)
        invariant var r := Text.ReadRegex(rest); Text.ReadRegex(old(rest)) == (text + r.0, n + r.1)
        decreases |rest|
      {
        ReadRegexTurn(rest, text, n);
        var k := if Text.IsEscapedSlash(rest) then 2 else 1;
        text := text + [if k == 2 then '/' else rest[0]];
        assert old(rest)[n..][k..] == old(rest)[n + k..];
        Advance(k);
        n := n + k;
      }
      ReadRegexEnds(rest, text);
      closed := rest != "";
    }

    /** The opening slash has just been read. */
    method ParseRegex() returns (m: Option<NameMatcher>)
      modifies this
      ensures (Now(), m) == Spec.ParseRegex(lib, old(Now()))
    {
      var start, body := off, rest;
      var text, closed := ReadRegex();
      m := None;
      if !closed {
        Reset(start, body);
        TakeTill(')');
        Report(ExpectedCloseRegex, Span(off, 0));
      } else if lib.validRegex(text) {
        m := Some(Regex(text));
      } else {
        Report(InvalidRegex, Span(start, off - start));
      }
      var _ := TakeChar('/');
    }

    method ParseGlob(implicit: bool) returns (m: Option<NameMatcher>)
      modifies this
      ensures (Now(), m) == Spec.ParseGlob(lib, old(Now()), implicit)
    {
      var start := off;
      var text := ParseText();
      m := None;
      if text.Some? {
        if lib.validGlob(text.value) {
          m := Some(Glob(text.value, implicit));
        } else {
          Report(InvalidGlob, Span(start, off - start));
        }
      }
    }

    method ParseDefaultMatcher(d: DefaultMatcher) returns (m: Option<NameMatcher>)
      modifies this
      ensures (Now(), m) == Spec.ParseDefaultMatcher(lib, d, old(Now()))
    {
      if d.DefaultGlob? {
        m := ParseGlob(true);
      } else {
        var text := ParseText();
        m := if text.Some? then Some(ImplicitMatcher(d, text.value)) else None;
      }
    }

    method SetMatcher(d: DefaultMatcher) returns (m: Option<NameMatcher>)
      modifies this
      ensures (Now(), m) == Spec.SetMatcher(lib, d, old(Now()))
    {
      SkipBlanks();
      if rest == "" || rest[0] !in "/#=~" {
        m := ParseDefaultMatcher(d);
      } else if rest[0] == '/' {
        Advance(1);
        m := ParseRegex();
      } else if rest[0] == '#' {
        Advance(1);
        m := ParseGlob(false);
      } else {
        var equal := rest[0] == '=';
        Advance(1);
        var text := ParseText();
        m := if text.None? then None
             else if equal then Some(Equal(text.value, false)) else Some(Contains(text.value, false));
      }
    }

    method RecoverComma()
      modifies this
      ensures Now() == Spec.RecoverComma(old(Now()))
    {
      var start, text := off, rest;
      SkipBlanks();
      var comma := rest != "" && rest[0] == ',';
      Reset(start, text);
      if comma {
        Report(UnexpectedComma, Span(off, 0));
        TakeTill(')');
      }
    }

    // ----- set definitions -----

    method ParseUnary(p: Predicate) returns (leaf: Option<ParsedLeaf>)
      modifies this
      ensures (Now(), leaf) == Spec.ParseUnary(lib, p, old(Now()))
    {
      hide Spec.ExpectChar, Spec.SetMatcher, Spec.RecoverComma;
      ExpectChar('(', ExpectedOpenParenthesis);
      var start := off;
      var matcher := SetMatcher(DefaultFor(p));
      var end := off;
      RecoverComma();
      ExpectChar(')', ExpectedCloseParenthesis);
      leaf := if matcher.Some? then Some(Matching(p, matcher.value, Span(start, end - start))) else None;
    }

    method ParsePlatform() returns (leaf: Option<ParsedLeaf>)
      modifies this
      ensures (Now(), leaf) == Spec.ParsePlatform(old(Now()))
    {
      hide Spec.ExpectChar, Spec.ParseText, Spec.RecoverComma, Spec.Trim;
      ExpectChar('(', ExpectedOpenParenthesis);
      var start := off;
      SkipBlanks();
      var text := ParseText();
      var span := Span(start, off - start);
      RecoverComma();
      ExpectChar(')', ExpectedCloseParenthesis);
      leaf := None;
      if text.Some? {
        if Spec.Trim(text.value) == PlatformText(Host) {
          leaf := Some(PlatformIs(Host, span));
        } else if Spec.Trim(text.value) == PlatformText(Target) {
          leaf := Some(PlatformIs(Target, span));
        } else {
          Report(InvalidPlatformArgument, span);
        }
      }
    }

    method ParseNullary(n: Spec.SetName, start: nat) returns (leaf: Option<ParsedLeaf>)
      requires start <= off
      modifies this
      ensures (Now(), leaf) == Spec.ParseNullary(n, start, old(Now()))
    {
      hide Spec.ExpectChar, Stream.TakeTill, Spec.Trim;
      ExpectChar('(', ExpectedOpenParenthesis);
      var argumentStart, text := off, rest;
      TakeTill(')');
      var argument := text[..|text| - |rest|];
      if Spec.Trim(argument) != "" {
        Report(UnexpectedArgument, Span(argumentStart, |argument|));
      }
      ExpectChar(')', ExpectedCloseParenthesis);
      leaf := Some(if n.DefaultName? then Default(Span(start, off - start)) else if n.AllName? then All else Nothing);
    }

    method ParseSet(n: Spec.SetName) returns (leaf: Option<ParsedLeaf>)
      requires Spec.SetKeyword(n) <= rest
      modifies this
      ensures (Now(), leaf) == Spec.ParseSet(lib, n, old(Now()))
    {
      var start := off;
      Advance(|Spec.SetKeyword(n)|);
      match n
      case Takes(p) => leaf := ParseUnary(p);
      case PlatformName => leaf := ParsePlatform();
      case _ => leaf := ParseNullary(n, start);
    }

    // ----- operators -----

    method ParseOr() returns (op: Option<Spec.Token<OrOperator>>)
      modifies this
      ensures match Spec.ParseOr(old(Now()))
              case Ok(st, v) => Now() == st && op == Some(v)
              case Backtrack => Now() == old(Now()) && op == None
    {
      var start, text := off, rest;
      SkipBlanks();
      match Spec.NextOr(rest)
      case None =>
        Reset(start, text);
        op := None;
      case Some((token, n)) =>
        start := off;
        Advance(n);
        if token.Mistake? {
          Report(InvalidOrOperator, Span(start, n));
        }
        op := Some(token);
    }

    method ParseAnd() returns (op: Option<Spec.Token<Spec.AndOrDifference>>)
      modifies this
      ensures match Spec.ParseAnd(old(Now()))
              case Ok(st, v) => Now() == st && op == Some(v)
              case Backtrack => Now() == old(Now()) && op == None
    {
      var start, text := off, rest;
      SkipBlanks();
      match Spec.NextAnd(rest)
      case None =>
        Reset(start, text);
        op := None;
      case Some((token, n)) =>
        start := off;
        Advance(n);
        if token.Mistake? {
          Report(InvalidAndOperator, Span(start, n));
        }
        op := Some(token);
    }

    // ----- expressions -----

    /** Declining leaves the stream in front of the blanks. */
    method ParseBasic() returns (r: Option<Result>)
      modifies this
      ensures match Spec.ParseBasic(lib, old(Now()))
              case Ok(st, v) => Now() == st && r == Some(v)
              case Backtrack => Now() == old(Now()) && r == None
      decreases |rest|, 0
    {
      var start, text := off, rest;
      SkipBlanks();
      match Spec.FirstName(rest, Spec.SET_NAMES)
      case Some(n) =>
        var leaf := ParseSet(n);
        r := Some(Spec.LeafResult(leaf));
      case None =>
        match Spec.NextNot(rest)
        case Some(op) =>
          Advance(|NotText(op)|);
          var e := ExpectBasic();
          r := Some(Spec.Negate(op, e));
        case None =>
          if "(" <= rest {
            Advance(1);
            var e := ParseOrs();
            ExpectChar(')', ExpectedCloseParenthesis);
            r := Some(Spec.Enclose(e));
          } else {
            match Spec.NextMisplaced(rest)
            case Some((kind, n)) =>
              var at := off;
              Advance(n);
              Report(kind, Span(at, n));
              r := Some(Spec.ExprResult.Error);
            case None =>
              Reset(start, text);
              r := None;
          }
    }

    method ExpectBasic() returns (r: Result)
      modifies this
      ensures (Now(), r) == Spec.ExpectExpr(old(Now()), Spec.ParseBasic(lib, old(Now())))
      decreases |rest|, 1
    {
      var e := ParseBasic();
      if e.Some? {
        r := e.value;
      } else {
        Report(ExpectedExpr, Span(off, |rest|));
        r := Spec.ExprResult.Error;
      }
    }

    /** Collects the operators and operands first, then folds them from the left. */
    method ParseAnds() returns (r: Result)
      modifies this
      ensures (Now(), r) == Spec.ParseAnds(lib, old(Now()))
      decreases |rest|, 2
    {
      hide Spec.ParseBasic, Spec.ParseAnd, Spec.CombineAnd, Spec.ExpectExpr;
      var first := ExpectBasic();
      var ops: seq<(Spec.Token<Spec.AndOrDifference>, Result)> := [];
      var op := ParseAnd();
      while op.Some?
        invariant match op
                  case None =>
                    Spec.ParseAnds(lib, old(Now())) == (Now(), FoldAnds(first, ops))
                  case Some(o) =>
                    var (st, e) := Spec.ExpectExpr(Now(), Spec.ParseBasic(lib, Now()));
                    Spec.ParseAnds(lib, old(Now()))
                    == Spec.AndLoop(lib, st, Spec.CombineAnd(o, FoldAnds(first, ops), e))
        invariant |rest| <= |old(rest)|
        invariant op.Some? ==> |rest| < |old(rest)|
        decreases |rest|, op.Some?
      {
        var e := ExpectBasic();
        ops := ops + [(op.value, e)];
        op := ParseAnd();
      }
      r := FoldAndList(first, ops);
    }

    method ParseOrs() returns (r: Result)
      modifies this
      ensures (Now(), r) == Spec.ParseOrs(lib, old(Now()))
      decreases |rest|, 4
    {
      hide Spec.ParseAnds, Spec.ParseOr, Spec.CombineOr;
      var first := ParseAnds();
      var ops: seq<(Spec.Token<OrOperator>, Result)> := [];
      var op := ParseOr();
      while op.Some?
        invariant match op
                  case None =>
                    Spec.ParseOrs(lib, old(Now())) == (Now(), FoldOrs(first, ops))
                  case Some(o) =>
                    var (st, e) := Spec.ParseAnds(lib, Now());
                    Spec.ParseOrs(lib, old(Now())) == Spec.OrLoop(lib, st, Spec.CombineOr(o, FoldOrs(first, ops), e))
        invariant |rest| <= |old(rest)|
        invariant op.Some? ==> |rest| < |old(rest)|
        decreases |rest|, op.Some?
      {
        var e := ParseAnds();
        ops := ops + [(op.value, e)];
        op := ParseOr();
      }
      r := FoldOrList(first, ops);
    }

    /** The whole input, to its end. */
    method Parse() returns (r: Result)
      requires off == 0 && errors == []
      modifies this
      ensures (Now(), r) == Spec.Parse(lib, old(rest))
    {
      r := ParseOrs();
      var start, text := off, rest;
      SkipBlanks();
      if rest != "" {
        Reset(start, text);
        Report(ExpectedEndOfExpression, Span(off, |rest|));
      }
    }
  }
}
