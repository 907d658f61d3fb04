/** What holds of everything the parser returns: errors are honest, trees are in
    normal form, and leaf spans lie in the input in source order. */
module ParserSoundness {
  import opened FiltersetSyntax
  import opened ParserState
  import opened MatcherText
  import opened FiltersetPrinter
  import opened FiltersetParser

  /** The source spans of the leaves, left to right (`all()` and `none()` carry none). */
  function Spans(e: ParsedExpr): seq<Span> {
    match e
    case Not(_, a) => Spans(a)
    case Union(_, a, b) => Spans(a) + Spans(b)
    case Intersection(_, a, b) => Spans(a) + Spans(b)
    case Difference(_, a, b) => Spans(a) + Spans(b)
    case Parens(a) => Spans(a)
    case Set(l) => LeafSpans(l)
  }

  function LeafSpans(l: ParsedLeaf): seq<Span> {
    if l.All? || l.Nothing? then [] else [l.span]
  }

  /** Inside `lo..hi`, apart from each other, and with increasing starts. */
  ghost predicate InOrder(spans: seq<Span>, lo: nat, hi: nat) {
    && (forall i | 0 <= i < |spans| :: lo <= spans[i].offset && spans[i].End() <= hi)
    && (forall i, j | 0 <= i < j < |spans| :: spans[i].End() < spans[j].offset)
  }

  lemma InOrderTail(s: seq<Span>, lo: nat, hi: nat)
    requires s != [] && InOrder(s, lo, hi)
    ensures lo <= s[0].offset && s[0].End() <= hi && InOrder(s[1..], s[0].End() + 1, hi)
  {
  }

  lemma InOrderHead(s: seq<Span>, lo: nat, hi: nat)
    requires s != [] && lo <= s[0].offset && s[0].End() <= hi && InOrder(s[1..], s[0].End() + 1, hi)
    ensures InOrder(s, lo, hi)
  {
    forall i, j | 0 <= i < j < |s| ensures s[i].End() < s[j].offset {
      assert s[j] == s[1..][j - 1];
      assert i > 0 ==> s[i] == s[1..][i - 1];
    }
    forall i | 0 < i < |s| ensures lo <= s[i].offset && s[i].End() <= hi {
      assert s[i] == s[1..][i - 1];
    }
  }

  lemma InOrderWiden(s: seq<Span>, lo: nat, lo': nat, hi: nat)
    requires InOrder(s, lo, hi) && lo' <= lo
    ensures InOrder(s, lo', hi)
  {
  }

  lemma InOrderConcat(a: seq<Span>, b: seq<Span>, lo: nat, m: nat, m': nat, hi: nat)
    requires InOrder(a, lo, m) && InOrder(b, m', hi) && lo <= m < m' <= hi
    ensures InOrder(a + b, lo, hi)
  {
    var s := a + b;
    forall i, j | 0 <= i < j < |s|
      ensures s[i].End() < s[j].offset
    {
      if i < |a| && |a| <= j {
        assert s[i].End() <= m && m' <= b[j - |a|].offset;
      }
    }
  }

  /** The matcher was accepted by the library that will run it, and a regex read
      between slashes does not end in a backslash. */
  predicate MatcherAccepted(lib: Lib, d: DefaultMatcher, m: NameMatcher) {
    match m
    case Regex(r) => lib.validRegex(r) && !EndsInBackslash(r)
    case _ =>
      && (m.Glob? ==> lib.validGlob(m.glob))
      && (m.implicit ==> m == ImplicitMatcher(d, ArgumentText(m)))
  }

  predicate LeafAccepted(lib: Lib, l: ParsedLeaf) {
    l.Matching? ==> MatcherAccepted(lib, DefaultFor(l.pred), l.matcher)
  }

  ghost predicate AllAccepted(lib: Lib, e: ParsedExpr) {
    forall l <- Leaves(e) :: LeafAccepted(lib, l)
  }

  /** What a result read between `lo` and `hi` guarantees, when `n` errors had been
      reported before and `errs` afterwards. */
  ghost predicate Sound(lib: Lib, r: ExprResult, lo: nat, hi: nat, n: nat, errs: nat) {
    match r
    case Error => n < errs
    case Valid(e) => NormalForm(e) && AllAccepted(lib, e) && InOrder(Spans(e), lo, hi)
  }

  lemma RegexAccepted(lib: Lib, d: DefaultMatcher, st: St)
    ensures var m := ParseRegex(lib, st).1; m.Some? ==> MatcherAccepted(lib, d, m.value)
  {
    hide ReadRegex, EndsInBackslash;
    if ReadRegex(st.rest).1 < |st.rest| {
      ReadRegexNeverEndsInBackslash(st.rest);
    }
  }

  lemma DefaultAccepted(lib: Lib, d: DefaultMatcher, st: St)
    ensures var m := ParseDefaultMatcher(lib, d, st).1; m.Some? ==> MatcherAccepted(lib, d, m.value)
  {
    hide ParseText, EndsInBackslash;
  }

  lemma SetMatcherAccepted(lib: Lib, d: DefaultMatcher, st: St)
    ensures var m := SetMatcher(lib, d, st).1; m.Some? ==> MatcherAccepted(lib, d, m.value)
  {
    hide SkipBlanks, ParseText, ParseRegex, ParseDefaultMatcher, EndsInBackslash;
    var st1 := SkipBlanks(st);
    DefaultAccepted(lib, d, st1);
    if st1.rest != "" {
      RegexAccepted(lib, d, st1.Advance(1));
    }
  }

  lemma ParseUnarySound(lib: Lib, p: Predicate, st: St)
    ensures var (st', leaf) := ParseUnary(lib, p, st);
            Sound(lib, LeafResult(leaf), st.off, st'.off, |st.errs|, |st'.errs|)
  {
    var st2 := ExpectChar(st, '(', ExpectedOpenParenthesis);
    SetMatcherAccepted(lib, DefaultFor(p), st2);
    hide SetMatcher, ExpectChar, RecoverComma, MatcherAccepted;
  }

  lemma ParsePlatformSound(lib: Lib, st: St)
    ensures var (st', leaf) := ParsePlatform(st);
            Sound(lib, LeafResult(leaf), st.off, st'.off, |st.errs|, |st'.errs|)
  {
    hide ExpectChar, RecoverComma, ParseText, Trim, SkipBlanks;
  }

  lemma ParseNullarySound(lib: Lib, n: SetName, start: nat, st: St)
    requires start <= st.off
    ensures var (st', leaf) := ParseNullary(n, start, st);
            Sound(lib, LeafResult(leaf), start, st'.off, |st.errs|, |st'.errs|)
  {
    hide ExpectChar, TakeTill, Trim;
  }

  lemma ParseSetSound(lib: Lib, n: SetName, st: St)
    requires SetKeyword(n) <= st.rest
    ensures var (st', leaf) := ParseSet(lib, n, st);
            Sound(lib, LeafResult(leaf), st.off, st'.off, |st.errs|, |st'.errs|)
  {
    var st1 := st.Advance(|SetKeyword(n)|);
    hide ParseUnary, ParsePlatform, ParseNullary, SetKeyword;
    var (st', leaf) := ParseSet(lib, n, st);
    match n
    case Takes(p) =>
      ParseUnarySound(lib, p, st1);
      SoundWiden(lib, LeafResult(leaf), st1.off, st.off, st'.off, st'.off, |st.errs|, |st.errs|, |st'.errs|,
        |st'.errs|);
    case PlatformName =>
      ParsePlatformSound(lib, st1);
      SoundWiden(lib, LeafResult(leaf), st1.off, st.off, st'.off, st'.off, |st.errs|, |st.errs|, |st'.errs|,
        |st'.errs|);
    case _ =>
      ParseNullarySound(lib, n, st.off, st1);
  }

  lemma Join(lib: Lib, a: ExprResult, b: ExprResult, lo: nat, m: nat, m': nat, hi: nat, n: nat, k: nat, errs: nat)
    requires Sound(lib, a, lo, m, n, k) && Sound(lib, b, m', hi, k, errs)
    requires lo <= m < m' <= hi && n <= k <= errs
    ensures a.Error? || b.Error? ==> n < errs
    ensures a.Valid? && b.Valid? ==> InOrder(Spans(a.expr) + Spans(b.expr), lo, hi)
  {
    if a.Valid? && b.Valid? {
      InOrderConcat(Spans(a.expr), Spans(b.expr), lo, m, m', hi);
    }
  }

  lemma SoundWiden(lib: Lib, r: ExprResult, lo: nat, lo': nat, hi: nat, hi': nat, n: nat, n': nat, e: nat, e': nat)
    requires Sound(lib, r, lo, hi, n, e) && lo' <= lo && hi <= hi' && n' <= n && e <= e'
    ensures Sound(lib, r, lo', hi', n', e')
  {
  }

  lemma {:induction false} BasicSound(lib: Lib, st: St)
    ensures var r := ParseBasic(lib, st);
            && (r.Ok? ==> Sound(lib, r.value, st.off, r.st.off, |st.errs|, |r.st.errs|))
            && (r.Ok? && r.value.Valid? ==> IsBasic(r.value.expr))
    decreases |st.rest|, 0
  {
    hide SkipBlanks, FirstName, ParseSet, NextNot, NextMisplaced, ExpectChar;
    var st1 := SkipBlanks(st);
    match FirstName(st1.rest, SET_NAMES)
    case Some(n) => ParseSetSound(lib, n, st1);
    case None =>
      match NextNot(st1.rest)
      case Some(op) =>
        assert |NotText(op)| > 0;
        BasicSound(lib, st1.Advance(|NotText(op)|));
      case None =>
        if "(" <= st1.rest {
          OrsSound(lib, st1.Advance(1));
        }
  }

  lemma {:induction false} AndsSound(lib: Lib, st: St)
    ensures var (st', r) := ParseAnds(lib, st);
            && Sound(lib, r, st.off, st'.off, |st.errs|, |st'.errs|)
            && (r.Valid? ==> !r.expr.Union?)
    decreases |st.rest|, 1
  {
    var (st1, first) := ExpectExpr(st, ParseBasic(lib, st));
    BasicSound(lib, st);
    AndLoopSound(lib, st1, first, st.off, |st.errs|);
  }

  lemma {:induction false} AndLoopSound(lib: Lib, st: St, acc: ExprResult, lo: nat, n: nat)
    requires lo <= st.off && n <= |st.errs|
    requires Sound(lib, acc, lo, st.off, n, |st.errs|) && (acc.Valid? ==> !acc.expr.Union?)
    ensures var (st', r) := AndLoop(lib, st, acc);
            && Sound(lib, r, lo, st'.off, n, |st'.errs|)
            && (r.Valid? ==> !r.expr.Union?)
    decreases |st.rest|, 0
  {
    match ParseAnd(st)
    case Backtrack =>
    case Ok(st1, op) =>
      var (st2, next) := ExpectExpr(st1, ParseBasic(lib, st1));
      BasicSound(lib, st1);
      SoundWiden(lib, acc, lo, lo, st.off, st.off, n, n, |st.errs|, |st1.errs|);
      Join(lib, acc, next, lo, st.off, st1.off, st2.off, n, |st1.errs|, |st2.errs|);
      AndLoopSound(lib, st2, CombineAnd(op, acc, next), lo, n);
  }

  lemma {:induction false} OrsSound(lib: Lib, st: St)
    ensures var (st', r) := ParseOrs(lib, st);
            Sound(lib, r, st.off, st'.off, |st.errs|, |st'.errs|)
    decreases |st.rest|, 3
  {
    var (st1, first) := ParseAnds(lib, st);
    AndsSound(lib, st);
    OrLoopSound(lib, st1, first, st.off, |st.errs|);
  }

  lemma {:induction false} OrLoopSound(lib: Lib, st: St, acc: ExprResult, lo: nat, n: nat)
    requires lo <= st.off && n <= |st.errs|
    requires Sound(lib, acc, lo, st.off, n, |st.errs|)
    ensures var (st', r) := OrLoop(lib, st, acc);
            Sound(lib, r, lo, st'.off, n, |st'.errs|)
    decreases |st.rest|, 2
  {
    match ParseOr(st)
    case Backtrack =>
    case Ok(st1, op) =>
      var (st2, next) := ParseAnds(lib, st1);
      AndsSound(lib, st1);
      SoundWiden(lib, acc, lo, lo, st.off, st.off, n, n, |st.errs|, |st1.errs|);
      Join(lib, acc, next, lo, st.off, st1.off, st2.off, n, |st1.errs|, |st2.errs|);
      OrLoopSound(lib, st2, CombineOr(op, acc, next), lo, n);
  }

  /** On every input: an `Error` result comes with a reported error; without one the
      whole input has been read; and every tree is in normal form, with its leaf
      spans inside the input and in source order. */
  lemma ParseSound(lib: Lib, input: string)
    ensures var (st, r) := Parse(lib, input);
            && (r.Error? ==> st.errs != [])
            && (st.errs == [] ==> r.Valid? && st.rest == "" && st.off == |input|)
            && (r.Valid? ==>
                  && NormalForm(r.expr)
                  && AllAccepted(lib, r.expr)
                  && InOrder(Spans(r.expr), 0, |input|))
  {
    OrsSound(lib, St(0, input, []));
  }
}
