/** The parser as functions on the stream: what each parser returns and where it stops.
    Blanks in front of nested `ws(…)` parsers are skipped once, at the outermost one. */
module FiltersetParser {
  import opened Wrappers
  import opened CharClasses
  import opened FiltersetSyntax
  import opened ParserState
  import opened MatcherText

  /** An expression, or the promise that an error has been reported. */
  datatype ExprResult = Valid(expr: ParsedExpr) | Error

  // ----- matchers -----

  function ExpectChar(st: St, c: char, kind: ErrorKind): (r: St)
    ensures Follows(st, r)
  {
    var st1 := SkipBlanks(st);
    if st1.rest != "" && st1.rest[0] == c then st1.Advance(1) else st.Report(kind, Span(st.off, 0))
  }

  /** A string argument; an empty one is reported but still returned. */
  function ParseText(st: St): (r: (St, Option<string>))
    ensures Follows(st, r.0) && EndsText(r.0.rest)
    ensures r.1.None? || r.1 == Some("") ==> |st.errs| < |r.0.errs|
  {
    var (st1, text) := ReadText(st, Some(""));
    if text == Some("") then (st1.Report(InvalidString, Span(st1.off, 0)), text) else (st1, text)
  }

  /** A regex body and its closing slash; `st` is just after the opening one. */
  function ParseRegex(lib: Lib, st: St): (r: (St, Option<NameMatcher>))
    ensures Follows(st, r.0)
    ensures r.1.None? ==> |st.errs| < |r.0.errs|
  {
    var (text, n) := ReadRegex(st.rest);
    if n == |st.rest| then
      var st1 := TakeTill(st, ')');
      (SkipSlash(st1.Report(ExpectedCloseRegex, Span(st1.off, 0))), None)
    else
      var st1 := st.Advance(n);
      if lib.validRegex(text) then (SkipSlash(st1), Some(Regex(text)))
      else (SkipSlash(st1.Report(InvalidRegex, Span(st.off, n))), None)
  }

  function SkipSlash(st: St): (r: St)
    ensures Follows(st, r) && r.errs == st.errs
  {
    var st1 := SkipBlanks(st);
    if st1.rest != "" && st1.rest[0] == '/' then st1.Advance(1) else st
  }

  function ParseGlob(lib: Lib, st: St, implicit: bool): (r: (St, Option<NameMatcher>))
    ensures Follows(st, r.0)
    ensures r.1.None? ==> |st.errs| < |r.0.errs|
  {
    var (st1, text) := ParseText(st);
    if text.None? then (st1, None)
    else if lib.validGlob(text.value) then (st1, Some(Glob(text.value, implicit)))
    else (st1.Report(InvalidGlob, Span(st.off, st1.off - st.off)), None)
  }

  function ParseEqual(st: St, implicit: bool): (r: (St, Option<NameMatcher>))
    ensures Follows(st, r.0)
    ensures r.1.None? ==> |st.errs| < |r.0.errs|
  {
    var (st1, text) := ParseText(st);
    (st1, if text.Some? then Some(Equal(text.value, implicit)) else None)
  }

  function ParseContains(st: St, implicit: bool): (r: (St, Option<NameMatcher>))
    ensures Follows(st, r.0)
    ensures r.1.None? ==> |st.errs| < |r.0.errs|
  {
    var (st1, text) := ParseText(st);
    (st1, if text.Some? then Some(Contains(text.value, implicit)) else None)
  }

  function ParseDefaultMatcher(lib: Lib, d: DefaultMatcher, st: St): (r: (St, Option<NameMatcher>))
    ensures Follows(st, r.0)
    ensures r.1.None? ==> |st.errs| < |r.0.errs|
  {
    match d
    case DefaultEqual => ParseEqual(st, true)
    case DefaultContains => ParseContains(st, true)
    case DefaultGlob => ParseGlob(lib, st, true)
  }

  function SetMatcher(lib: Lib, d: DefaultMatcher, st: St): (r: (St, Option<NameMatcher>))
    ensures Follows(st, r.0)
    ensures r.1.None? ==> |st.errs| < |r.0.errs|
  {
    var st1 := SkipBlanks(st);
    if st1.rest == "" then ParseDefaultMatcher(lib, d, st1)
    else if st1.rest[0] == '/' then ParseRegex(lib, st1.Advance(1))
    else if st1.rest[0] == '#' then ParseGlob(lib, st1.Advance(1), false)
    else if st1.rest[0] == '=' then ParseEqual(st1.Advance(1), false)
    else if st1.rest[0] == '~' then ParseContains(st1.Advance(1), false)
    else ParseDefaultMatcher(lib, d, st1)
  }

  function RecoverComma(st: St): (r: St)
    ensures Follows(st, r)
  {
    var st1 := SkipBlanks(st);
    if st1.rest != "" && st1.rest[0] == ',' then
      TakeTill(st.Report(UnexpectedComma, Span(st.off, 0)), ')')
    else st
  }

  // ----- set definitions -----

  datatype SetName = Takes(pred: Predicate) | PlatformName | DefaultName | AllName | NoneName

  function SetKeyword(n: SetName): string {
    match n
    case Takes(p) => Keyword(p)
    case PlatformName => "platform"
    case DefaultName => "default"
    case AllName => "all"
    case NoneName => "none"
  }

  /** The set names in the order they are tried: `binary_id` before `binary`. */
  const SET_NAMES: seq<SetName> := [
    Takes(Package), Takes(Deps), Takes(Rdeps), Takes(Kind), Takes(BinaryId), Takes(Binary),
    Takes(Test), Takes(Group), PlatformName, DefaultName, AllName, NoneName
  ]

  function FirstName(s: string, names: seq<SetName>): (r: Option<SetName>)
    ensures r.Some? ==> SetKeyword(r.value) <= s
  {
    if names == [] then None
    else if SetKeyword(names[0]) <= s then Some(names[0])
    else FirstName(s, names[1..])
  }

  /** The name found is the first in the order tried that the text starts with; none is found
      when the text starts with no name. */
  lemma {:induction false} FirstNameIsFirst(s: string, names: seq<SetName>)
    ensures match FirstName(s, names)
            case None => forall n <- names :: !(SetKeyword(n) <= s)
            case Some(found) =>
              exists i :: 0 <= i < |names| && names[i] == found && SetKeyword(found) <= s
                          && forall j :: 0 <= j < i ==> !(SetKeyword(names[j]) <= s)
  {
    if names != [] && !(SetKeyword(names[0]) <= s) {
      FirstNameIsFirst(s, names[1..]);
      var found := FirstName(s, names[1..]);
      if found.Some? {
        var i :| 0 <= i < |names[1..]| && names[1..][i] == found.value
                 && forall j :: 0 <= j < i ==> !(SetKeyword(names[1..][j]) <= s);
        assert names[i + 1] == found.value;
        assert forall j :: 1 <= j < i + 1 ==> names[j] == names[1..][j - 1];
      }
    }
  }

  function Trim(s: string): (r: string)
    decreases |s|
  {
    if s == "" then ""
    else if IsWhitespace(s[0]) then Trim(s[1..])
    else if IsWhitespace(s[|s| - 1]) then Trim(s[..|s| - 1])
    else s
  }

  function ParseUnary(lib: Lib, p: Predicate, st: St): (r: (St, Option<ParsedLeaf>))
    ensures Follows(st, r.0)
    ensures r.1.None? ==> |st.errs| < |r.0.errs|
  {
    var st2 := ExpectChar(st, '(', ExpectedOpenParenthesis);
    var (st3, matcher) := SetMatcher(lib, DefaultFor(p), st2);
    var st5 := ExpectChar(RecoverComma(st3), ')', ExpectedCloseParenthesis);
    (st5, if matcher.Some? then Some(Matching(p, matcher.value, Span(st2.off, st3.off - st2.off))) else None)
  }

  function ParsePlatform(st: St): (r: (St, Option<ParsedLeaf>))
    ensures Follows(st, r.0)
    ensures r.1.None? ==> |st.errs| < |r.0.errs|
  {
    var st2 := ExpectChar(st, '(', ExpectedOpenParenthesis);
    var (st3, text) := ParseText(SkipBlanks(st2));
    var st5 := ExpectChar(RecoverComma(st3), ')', ExpectedCloseParenthesis);
    var span := Span(st2.off, st3.off - st2.off);
    if text.None? then (st5, None)
    else if Trim(text.value) == PlatformText(Host) then (st5, Some(PlatformIs(Host, span)))
    else if Trim(text.value) == PlatformText(Target) then (st5, Some(PlatformIs(Target, span)))
    else (st5.Report(InvalidPlatformArgument, span), None)
  }

  /** `start` is the offset of the set name, `st` just after it. */
  function ParseNullary(n: SetName, start: nat, st: St): (r: (St, Option<ParsedLeaf>))
    requires start <= st.off
    ensures Follows(st, r.0) && r.1.Some?
  {
    var st2 := ExpectChar(st, '(', ExpectedOpenParenthesis);
    var st3 := TakeTill(st2, ')');
    var argument := st2.rest[..|st2.rest| - |st3.rest|];
    var st4 := if Trim(argument) != "" then st3.Report(UnexpectedArgument, Span(st2.off, |argument|)) else st3;
    var st5 := ExpectChar(st4, ')', ExpectedCloseParenthesis);
    var leaf := if n.DefaultName? then Default(Span(start, st5.off - start))
                else if n.AllName? then All else Nothing;
    (st5, Some(leaf))
  }

  /** The parenthesized argument of the set `n`, whose name starts at offset `start`. */
  function ParseArgument(lib: Lib, n: SetName, start: nat, st: St): (r: (St, Option<ParsedLeaf>))
    requires start <= st.off
    ensures Follows(st, r.0)
    ensures r.1.None? ==> |st.errs| < |r.0.errs|
  {
    match n
    case Takes(p) => ParseUnary(lib, p, st)
    case PlatformName => ParsePlatform(st)
    case _ => ParseNullary(n, start, st)
  }

  /** A set definition; `st.rest` begins with the name `n`. */
  function ParseSet(lib: Lib, n: SetName, st: St): (r: (St, Option<ParsedLeaf>))
    requires SetKeyword(n) <= st.rest
    ensures Follows(st, r.0) && |r.0.rest| < |st.rest|
    ensures r.1.None? ==> |st.errs| < |r.0.errs|
  {
    assert |SetKeyword(n)| > 0;
    ParseArgument(lib, n, st.off, st.Advance(|SetKeyword(n)|))
  }

  // ----- operators -----

  predicate IsWordChar(c: char) {
    'a' <= c <= 'z' || 'A' <= c <= 'Z' || '0' <= c <= '9' || c == '_'
  }

  /** `text` comes next, and no word character follows it. */
  predicate WordNext(text: string, s: string) {
    text <= s && (|s| == |text| || !IsWordChar(s[|text|]))
  }

  function NextNot(s: string): (r: Option<NotOperator>)
    ensures r.Some? ==> NotText(r.value) <= s
  {
    if WordNext("not", s) then Some(LiteralNot)
    else if "!" <= s then Some(Exclamation)
    else None
  }

  /** A token where an operator may stand: an operator, or a common mistake for one. */
  datatype Token<T> = Operator(op: T) | Mistake

  function NextOr(s: string): (r: Option<(Token<OrOperator>, nat)>)
    ensures r.Some? ==> 0 < r.value.1 <= |s|
  {
    if "||" <= s || WordNext("OR", s) then Some((Mistake, 2))
    else if WordNext("or", s) then Some((Operator(LiteralOr), 2))
    else if "|" <= s then Some((Operator(Pipe), 1))
    else if "+" <= s then Some((Operator(Plus), 1))
    else None
  }

  datatype AndOrDifference = And(andOp: AndOperator) | Subtract(diffOp: DifferenceOperator)

  function NextAnd(s: string): (r: Option<(Token<AndOrDifference>, nat)>)
    ensures r.Some? ==> 0 < r.value.1 <= |s|
  {
    if "&&" <= s then Some((Mistake, 2))
    else if WordNext("AND", s) then Some((Mistake, 3))
    else if WordNext("and", s) then Some((Operator(And(LiteralAnd)), 3))
    else if "&" <= s then Some((Operator(And(Ampersand)), 1))
    else if "-" <= s then Some((Operator(Subtract(Minus)), 1))
    else None
  }

  /** An operator after blanks; a mistake is reported and still taken. */
  function ParseOr(st: St): (r: Reply<Token<OrOperator>>)
    ensures r.Ok? ==> Follows(st, r.st) && |r.st.rest| < |st.rest|
    ensures r.Ok? && r.value.Mistake? ==> |st.errs| < |r.st.errs|
  {
    var st1 := SkipBlanks(st);
    match NextOr(st1.rest)
    case None => Backtrack
    case Some((Mistake, n)) => Ok(st1.Advance(n).Report(InvalidOrOperator, Span(st1.off, n)), Mistake)
    case Some((op, n)) => Ok(st1.Advance(n), op)
  }

  function ParseAnd(st: St): (r: Reply<Token<AndOrDifference>>)
    ensures r.Ok? ==> Follows(st, r.st) && |r.st.rest| < |st.rest|
    ensures r.Ok? && r.value.Mistake? ==> |st.errs| < |r.st.errs|
  {
    var st1 := SkipBlanks(st);
    match NextAnd(st1.rest)
    case None => Backtrack
    case Some((Mistake, n)) => Ok(st1.Advance(n).Report(InvalidAndOperator, Span(st1.off, n)), Mistake)
    case Some((op, n)) => Ok(st1.Advance(n), op)
  }

  /** A binary or unary operator where an expression should start: its kind and length. */
  function NextMisplaced(s: string): (r: Option<(ErrorKind, nat)>)
    ensures r.Some? ==> 0 < r.value.1 <= |s|
  {
    if WordNext("and", s) then Some((ExprFoundBinaryOp, 3))
    else if WordNext("or", s) then Some((ExprFoundBinaryOp, 2))
    else if WordNext("AND", s) then Some((ExprFoundBinaryOp, 3))
    else if WordNext("OR", s) then Some((ExprFoundBinaryOp, 2))
    else if "&&" <= s then Some((ExprFoundBinaryOp, 2))
    else if "||" <= s then Some((ExprFoundBinaryOp, 2))
    else if WordNext("NOT", s) then Some((ExprFoundUnaryOp, 3))
    else None
  }

  // ----- expressions -----

  function Negate(op: NotOperator, r: ExprResult): ExprResult {
    if r.Valid? then Valid(Not(op, r.expr)) else Error
  }

  function Enclose(r: ExprResult): ExprResult {
    if r.Valid? then Valid(Parens(r.expr)) else Error
  }

  function CombineOr(op: Token<OrOperator>, a: ExprResult, b: ExprResult): ExprResult {
    if op.Operator? && a.Valid? && b.Valid? then Valid(Union(op.op, a.expr, b.expr)) else Error
  }

  function CombineAnd(op: Token<AndOrDifference>, a: ExprResult, b: ExprResult): ExprResult {
    if op.Operator? && a.Valid? && b.Valid? then
      match op.op
      case And(o) => Valid(Intersection(o, a.expr, b.expr))
      case Subtract(o) => Valid(Difference(o, a.expr, b.expr))
    else Error
  }

  function LeafResult(leaf: Option<ParsedLeaf>): ExprResult {
    if leaf.Some? then Valid(Set(leaf.value)) else Error
  }

  function ExpectExpr(st: St, r: Reply<ExprResult>): (res: (St, ExprResult))
    requires r.Ok? ==> Follows(st, r.st)
    ensures Follows(st, res.0)
  {
    if r.Ok? then (r.st, r.value) else (st.Report(ExpectedExpr, Span(st.off, |st.rest|)), Error)
  }

  function ParseBasic(lib: Lib, st: St): (r: Reply<ExprResult>)
    ensures r.Ok? ==> Follows(st, r.st) && |r.st.rest| < |st.rest|
    decreases |st.rest|, 0
  {
    var st1 := SkipBlanks(st);
    match FirstName(st1.rest, SET_NAMES)
    case Some(n) =>
      var (st2, leaf) := ParseSet(lib, n, st1);
      Ok(st2, LeafResult(leaf))
    case None =>
      match NextNot(st1.rest)
      case Some(op) =>
        assert |NotText(op)| > 0;
        var st2 := st1.Advance(|NotText(op)|);
        var (st3, r) := ExpectExpr(st2, ParseBasic(lib, st2));
        Ok(st3, Negate(op, r))
      case None =>
        if "(" <= st1.rest then
          var (st2, r) := ParseOrs(lib, st1.Advance(1));
          Ok(ExpectChar(st2, ')', ExpectedCloseParenthesis), Enclose(r))
        else
          match NextMisplaced(st1.rest)
          case Some((kind, n)) => Ok(st1.Advance(n).Report(kind, Span(st1.off, n)), Error)
          case None => Backtrack
  }

  /** A chain of basic expressions joined by `and`, `&` and `-`, grouped to the left. */
  function ParseAnds(lib: Lib, st: St): (r: (St, ExprResult))
    ensures Follows(st, r.0)
    decreases |st.rest|, 1
  {
    var (st1, first) := ExpectExpr(st, ParseBasic(lib, st));
    AndLoop(lib, st1, first)
  }

  function AndLoop(lib: Lib, st: St, acc: ExprResult): (r: (St, ExprResult))
    ensures Follows(st, r.0)
    decreases |st.rest|, 0
  {
    match ParseAnd(st)
    case Backtrack => (st, acc)
    case Ok(st1, op) =>
      var (st2, next) := ExpectExpr(st1, ParseBasic(lib, st1));
      AndLoop(lib, st2, CombineAnd(op, acc, next))
  }

  /** A chain of those joined by `or`, `|` and `+`, grouped to the left. */
  function ParseOrs(lib: Lib, st: St): (r: (St, ExprResult))
    ensures Follows(st, r.0)
    decreases |st.rest|, 3
  {
    var (st1, first) := ParseAnds(lib, st);
    OrLoop(lib, st1, first)
  }

  function OrLoop(lib: Lib, st: St, acc: ExprResult): (r: (St, ExprResult))
    ensures Follows(st, r.0)
    decreases |st.rest|, 2
  {
    match ParseOr(st)
    case Backtrack => (st, acc)
    case Ok(st1, op) =>
      var (st2, next) := ParseAnds(lib, st1);
      OrLoop(lib, st2, CombineOr(op, acc, next))
  }

  /** A whole filterset: the final stream (with all errors) and the result. */
  function Parse(lib: Lib, input: string): (St, ExprResult) {
    var (st, r) := ParseOrs(lib, St(0, input, []));
    var st1 := SkipBlanks(st);
    (if st1.rest == "" then st1 else st.Report(ExpectedEndOfExpression, Span(st.off, |st.rest|)), r)
  }
}
