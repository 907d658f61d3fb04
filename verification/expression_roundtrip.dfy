/** Parsing undoes printing, on exactly the printable normal forms. */
module ExpressionRoundTrip {
  import opened Wrappers
  import opened FiltersetSyntax
  import opened ParserState
  import opened MatcherText
  import opened FiltersetPrinter
  import opened FiltersetParser
  import opened ParserSoundness
  import opened MatcherRoundTrip

  // ----- leaves -----

  predicate LeafClosed(l: ParsedLeaf) {
    l.Matching? ==> Closed(l.matcher)
  }

  function NameOf(l: ParsedLeaf): SetName {
    match l
    case Matching(p, _, _) => Takes(p)
    case PlatformIs(_, _) => PlatformName
    case Default(_) => DefaultName
    case All => AllName
    case Nothing => NoneName
  }

  /** What is printed between the parentheses of a leaf. */
  function ArgumentOf(l: ParsedLeaf): string {
    match l
    case Matching(_, m, _) => PrintMatcher(m)
    case PlatformIs(p, _) => PlatformText(p)
    case _ => ""
  }

  lemma PrintLeafShape(l: ParsedLeaf, t: string)
    ensures PrintLeaf(l) + t == SetKeyword(NameOf(l)) + ("(" + (ArgumentOf(l) + (")" + t)))
  {
  }

  lemma {:induction false} FirstNameIs(s: string, names: seq<SetName>, k: nat)
    requires k < |names| && SetKeyword(names[k]) <= s
    requires forall i | 0 <= i < k :: !(SetKeyword(names[i]) <= s)
    ensures FirstName(s, names) == Some(names[k])
  {
    if k > 0 {
      FirstNameIs(s, names[1..], k - 1);
    }
  }

  lemma {:induction false} FirstNameNone(s: string, names: seq<SetName>)
    requires forall i | 0 <= i < |names| :: !(SetKeyword(names[i]) <= s)
    ensures FirstName(s, names) == None
  {
    if names != [] {
      FirstNameNone(s, names[1..]);
    }
  }

  /** Two different keywords disagree at some place, the shorter one being followed by
      `(`; only `binary` is a prefix of another one. */
  lemma KeywordsApart(a: SetName, b: SetName, x: string)
    requires a != b && !(a == Takes(Binary) && b == Takes(BinaryId))
    ensures !(SetKeyword(a) <= SetKeyword(b) + ("(" + x))
  {
    var s, k := SetKeyword(b) + ("(" + x), SetKeyword(b);
    assert |k| >= 3 && s[0] == k[0] && s[1] == k[1] && s[2] == k[2];
    assert |k| == 6 ==> s[6] == '(';
  }

  /** Where a name stands among those tried. */
  function Rank(n: SetName): (k: nat)
    ensures k < |SET_NAMES| && SET_NAMES[k] == n
  {
    match n
    case Takes(Package) => 0
    case Takes(Deps) => 1
    case Takes(Rdeps) => 2
    case Takes(Kind) => 3
    case Takes(BinaryId) => 4
    case Takes(Binary) => 5
    case Takes(Test) => 6
    case Takes(Group) => 7
    case PlatformName => 8
    case DefaultName => 9
    case AllName => 10
    case NoneName => 11
  }

  lemma NameReads(n: SetName, x: string)
    ensures FirstName(SetKeyword(n) + ("(" + x), SET_NAMES) == Some(n)
  {
    var s := SetKeyword(n) + ("(" + x);
    var k := Rank(n);
    forall i | 0 <= i < k
      ensures !(SetKeyword(SET_NAMES[i]) <= s)
    {
      assert Rank(SET_NAMES[i]) == i;
      KeywordsApart(SET_NAMES[i], n, x);
    }
    FirstNameIs(s, SET_NAMES, k);
  }

  lemma ExpectCharReads(st: St, c: char, kind: ErrorKind, t: string)
    requires st.rest == [c] + t && (c == '(' || c == ')')
    ensures ExpectChar(st, c, kind) == St(st.off + 1, t, st.errs)
  {
    assert st.rest[1..] == t;
  }

  lemma TrimPlatform(p: Platform)
    ensures Trim(PlatformText(p)) == PlatformText(p)
  {
  }

  lemma {:induction false} PlainText(s: string)
    requires forall i | 0 <= i < |s| :: 'a' <= s[i] <= 'z'
    ensures EscapeText(s) == s && !HasQuote(s)
  {
    if s != "" {
      PlainText(s[1..]);
      assert EscapeChar(s[0]) == [s[0]];
      assert s == [s[0]] + s[1..];
    }
  }

  lemma PlatformReads(p: Platform, st: St, t: string)
    requires st.rest == "(" + (PlatformText(p) + (")" + t))
    ensures var (st', v) := ParsePlatform(st);
            && st' == After(st, t, [])
            && v.Some? && StripLeaf(v.value) == PlatformIs(p, NO_SPAN)
  {
    hide EscapeText, Trim, ExpectChar, ParseText, TakeTill;
    var text := PlatformText(p);
    var st2 := St(st.off + 1, text + (")" + t), st.errs);
    ExpectCharReads(st, '(', ExpectedOpenParenthesis, st2.rest);
    assert SkipBlanks(st2) == st2;
    PlainText(text);
    var es := TextReads(text, st2, ")" + t);
    ExpectCharReads(After(st2, ")" + t, es), ')', ExpectedCloseParenthesis, t);
    TrimPlatform(p);
  }

  /** `(`, an argument that reads as `r`, and `)` make a set. */
  lemma UnaryStep(lib: Lib, p: Predicate, st: St, x: string, t: string, r: Option<NameMatcher>, es: seq<Diagnostic>)
    requires st.rest == "(" + x && |t| < |x|
    requires var st2 := St(st.off + 1, x, st.errs);
             SetMatcher(lib, DefaultFor(p), st2) == (After(st2, ")" + t, es), r)
    ensures var (st', v) := ParseUnary(lib, p, st);
            && st' == After(st, t, es)
            && (v.Some? <==> r.Some?)
            && (v.Some? ==> StripLeaf(v.value) == Matching(p, r.value, NO_SPAN))
  {
    var st2 := St(st.off + 1, x, st.errs);
    ExpectCharReads(st, '(', ExpectedOpenParenthesis, x);
    var st3 := After(st2, ")" + t, es);
    ExpectCharReads(st3, ')', ExpectedCloseParenthesis, t);
    assert RecoverComma(st3) == st3;
    hide SetMatcher, ExpectChar, RecoverComma;
  }

  lemma MatchingReads(lib: Lib, p: Predicate, m: NameMatcher, st: St, t: string)
    returns (v: Option<ParsedLeaf>, es: seq<Diagnostic>)
    requires Closed(m) && st.rest == "(" + (PrintMatcher(m) + (")" + t))
    ensures ParseUnary(lib, p, st) == (After(st, t, es), v)
    ensures v.Some? && StripLeaf(v.value) == Matching(p, m, NO_SPAN) <==> Printable(lib, DefaultFor(p), m)
    ensures Printable(lib, DefaultFor(p), m) ==> (es == [] <==> m.Regex? || ArgumentText(m) != "")
  {
    hide PrintMatcher, SetMatcher, Printable, ParseUnary, ArgumentText;
    var x := PrintMatcher(m) + (")" + t);
    var r, es0 := SetMatcherReads(lib, DefaultFor(p), m, St(st.off + 1, x, st.errs), ")" + t);
    UnaryStep(lib, p, st, x, t, r, es0);
    v, es := ParseUnary(lib, p, st).1, es0;
  }

  lemma NullaryReads(n: SetName, start: nat, st: St, t: string)
    requires start <= st.off && st.rest == "(" + (")" + t) && (n.DefaultName? || n.AllName? || n.NoneName?)
    ensures var (st', v) := ParseNullary(n, start, st);
            && st' == After(st, t, [])
            && StripLeaf(v.value) == (if n.DefaultName? then Default(NO_SPAN) else if n.AllName? then All else Nothing)
  {
    var st2 := St(st.off + 1, ")" + t, st.errs);
    ExpectCharReads(st, '(', ExpectedOpenParenthesis, st2.rest);
    assert TakeTill(st2, ')') == st2;
    assert st2.rest[..0] == "" && Trim("") == "";
    ExpectCharReads(st2, ')', ExpectedCloseParenthesis, t);
    assert st.errs + [] == st.errs;
  }

  lemma ArgumentReads(lib: Lib, l: ParsedLeaf, start: nat, st: St, t: string)
    returns (v: Option<ParsedLeaf>, es: seq<Diagnostic>)
    requires LeafClosed(l) && start <= st.off && st.rest == "(" + (ArgumentOf(l) + (")" + t))
    ensures ParseArgument(lib, NameOf(l), start, st) == (After(st, t, es), v)
    ensures v.Some? && StripLeaf(v.value) == StripLeaf(l) <==> LeafPrintable(lib, l)
    ensures LeafPrintable(lib, l) ==> (es == [] <==> !EmptyText(l))
  {
    hide PrintMatcher, Printable, ParseUnary, ParsePlatform, ParseNullary, ArgumentText;
    if l.Matching? {
      v, es := MatchingReads(lib, l.pred, l.matcher, st, t);
    } else if l.PlatformIs? {
      es := [];
      PlatformReads(l.platform, st, t);
      v := ParsePlatform(st).1;
    } else {
      es := [];
      assert "" + (")" + t) == ")" + t;
      NullaryReads(NameOf(l), start, st, t);
      v := ParseNullary(NameOf(l), start, st).1;
    }
  }

  /** A printed leaf is read to its end; the same leaf comes back exactly when it is
      printable, and then silently unless its text is empty. */
  lemma LeafReads(lib: Lib, l: ParsedLeaf, st: St, t: string)
    returns (v: Option<ParsedLeaf>, es: seq<Diagnostic>)
    requires LeafClosed(l) && SetKeyword(NameOf(l)) <= st.rest
    requires st.rest[|SetKeyword(NameOf(l))|..] == "(" + (ArgumentOf(l) + (")" + t))
    ensures |t| < |st.rest| && ParseSet(lib, NameOf(l), st) == (After(st, t, es), v)
    ensures v.Some? && StripLeaf(v.value) == StripLeaf(l) <==> LeafPrintable(lib, l)
    ensures LeafPrintable(lib, l) ==> (es == [] <==> !EmptyText(l))
  {
    hide SetKeyword, ParseArgument, LeafPrintable, EmptyText, ArgumentOf;
    var n := NameOf(l);
    v, es := ArgumentReads(lib, l, st.off, st.Advance(|SetKeyword(n)|), t);
  }

  // ----- expressions -----

  ghost predicate AllClosed(e: ParsedExpr) {
    forall l <- Leaves(e) :: LeafClosed(l)
  }

  /** No leaf has an empty string argument. */
  ghost predicate NoEmptyText(e: ParsedExpr) {
    forall l <- Leaves(e) :: !EmptyText(l)
  }

  /** The result is the tree `e`, up to source spans. */
  predicate Same(r: ExprResult, e: ParsedExpr) {
    r.Valid? && Strip(r.expr) == Strip(e)
  }

  /** What parsing the printed form of `e` has to give: `e` itself exactly when every
      leaf is printable, and then silently unless some text is empty. */
  ghost predicate Reads(lib: Lib, e: ParsedExpr, v: ExprResult, es: seq<Diagnostic>) {
    && (Same(v, e) <==> AllPrintable(lib, e))
    && (AllPrintable(lib, e) ==> (es == [] <==> NoEmptyText(e)))
  }

  lemma AllClosedSplit(e: ParsedExpr, a: ParsedExpr, b: ParsedExpr)
    requires Leaves(e) == Leaves(a) + Leaves(b)
    ensures AllClosed(e) <==> AllClosed(a) && AllClosed(b)
  {
    hide LeafClosed, Leaves;
  }

  lemma AllPrintableSplit(lib: Lib, e: ParsedExpr, a: ParsedExpr, b: ParsedExpr)
    requires Leaves(e) == Leaves(a) + Leaves(b)
    ensures AllPrintable(lib, e) <==> AllPrintable(lib, a) && AllPrintable(lib, b)
  {
    hide LeafPrintable, Leaves;
  }

  lemma NoEmptyTextSplit(e: ParsedExpr, a: ParsedExpr, b: ParsedExpr)
    requires Leaves(e) == Leaves(a) + Leaves(b)
    ensures NoEmptyText(e) <==> NoEmptyText(a) && NoEmptyText(b)
  {
    hide EmptyText, Leaves;
  }

  /** Printed expressions start with a letter, `!` or `(`: never with a blank. */
  lemma {:induction false} PrintStart(e: ParsedExpr)
    ensures Print(e) != "" && BlankLength(Print(e)) == 0 && Print(e)[0] != '\r'
  {
    match e
    case Union(_, a, _) => PrintStart(a);
    case Intersection(_, a, _) => PrintStart(a);
    case Difference(_, a, _) => PrintStart(a);
    case Set(l) => PrintLeafShape(l, "");
    case _ =>
  }

  lemma PrintStartsHere(e: ParsedExpr, t: string)
    ensures DropBlanks(Print(e) + t) == Print(e) + t
    ensures DropBlanks(" " + (Print(e) + t)) == Print(e) + t
  {
    PrintStart(e);
    assert BlankLength(Print(e) + t) == 0;
    DropBlanksNone(Print(e) + t);
    DropOneSpace(Print(e) + t);
  }

  lemma SetReads(lib: Lib, l: ParsedLeaf, st: St, t: string) returns (v: ExprResult, es: seq<Diagnostic>)
    requires LeafClosed(l) && DropBlanks(st.rest) == PrintLeaf(l) + t
    ensures |t| < |st.rest| && ParseBasic(lib, st) == Ok(After(st, t, es), v)
    ensures Reads(lib, Set(l), v, es)
  {
    var st1 := SkipBlanks(st);
    SkipBlanksDrops(st);
    PrintLeafShape(l, t);
    var n, x := NameOf(l), ArgumentOf(l) + (")" + t);
    NameReads(n, x);
    KeywordSplit(n, x);
    hide PrintLeaf, SetKeyword, ArgumentOf, FirstName, SkipBlanks, DropBlanks, ParseSet;
    var leaf;
    leaf, es := LeafReads(lib, l, st1, t);
    v := LeafResult(leaf);
    OneLeaf(lib, l);
  }

  lemma KeywordSplit(n: SetName, x: string)
    ensures SetKeyword(n) <= SetKeyword(n) + ("(" + x)
    ensures (SetKeyword(n) + ("(" + x))[|SetKeyword(n)|..] == "(" + x
  {
  }

  lemma OneLeaf(lib: Lib, l: ParsedLeaf)
    ensures AllPrintable(lib, Set(l)) <==> LeafPrintable(lib, l)
    ensures NoEmptyText(Set(l)) <==> !EmptyText(l)
  {
    assert Leaves(Set(l)) == [l] && l in [l];
  }

  // ----- operators -----

  lemma KeywordLetters(n: SetName)
    ensures var k := SetKeyword(n);
            && |k| >= 3 && k[0] != '(' && k[0] != '!'
            && !(k[0] == 'n' && k[1] == 'o' && k[2] == 't')
  {
  }

  /** Text that starts with `(`, `!` or `not` is no set. */
  lemma NoName(s: string)
    requires s != "" && (s[0] == '(' || s[0] == '!' || (|s| >= 3 && s[0] == 'n' && s[1] == 'o' && s[2] == 't'))
    ensures FirstName(s, SET_NAMES) == None
  {
    hide SetKeyword;
    forall i | 0 <= i < |SET_NAMES|
      ensures !(SetKeyword(SET_NAMES[i]) <= s)
    {
      KeywordLetters(SET_NAMES[i]);
    }
    FirstNameNone(s, SET_NAMES);
  }

  lemma NotReads(op: NotOperator, s: string, t: string)
    requires s == NotText(op) + (" " + t)
    ensures FirstName(s, SET_NAMES) == None && NextNot(s) == Some(op)
    ensures s[|NotText(op)|..] == " " + t
  {
    hide FirstName;
    assert s[0] == NotText(op)[0] && s[|NotText(op)|] == ' ';
    assert op == LiteralNot ==> s[1] == 'o' && s[2] == 't';
    NoName(s);
  }

  lemma OpenReads(s: string, t: string)
    requires s == "(" + t
    ensures FirstName(s, SET_NAMES) == None && NextNot(s) == None && "(" <= s && s[1..] == t
  {
    hide FirstName;
    assert s[0] == '(';
    NoName(s);
  }

  function AndOrText(op: AndOrDifference): string {
    match op
    case And(o) => AndText(o)
    case Subtract(_) => "-"
  }

  lemma OrToken(op: OrOperator, t: string)
    ensures var s := OrText(op) + (" " + t);
            && BlankLength(s) == 0
            && NextOr(s) == Some((Operator(op), |OrText(op)|))
            && NextAnd(s) == None
            && s[|OrText(op)|..] == " " + t
  {
    var s := OrText(op) + (" " + t);
    assert s[0] == OrText(op)[0] && s[|OrText(op)|] == ' ';
  }

  lemma AndToken(op: AndOrDifference, t: string)
    ensures var s := AndOrText(op) + (" " + t);
            && BlankLength(s) == 0
            && NextAnd(s) == Some((Operator(op), |AndOrText(op)|))
            && s[|AndOrText(op)|..] == " " + t
  {
    var s := AndOrText(op) + (" " + t);
    assert s[0] == AndOrText(op)[0];
    match op
    case And(LiteralAnd) => assert s[3] == ' ' && WordNext("and", s);
    case And(Ampersand) => assert s[1] == ' ';
    case Subtract(Minus) => assert s[0] == '-';
  }

  /** After a printed operator, a blank and what follows are still to be read. */
  lemma OrReads(op: OrOperator, st: St, t: string)
    requires st.rest == " " + (OrText(op) + (" " + t))
    ensures ParseOr(st) == Ok(After(st, " " + t, []), Operator(op))
    ensures ParseAnd(st) == Backtrack
  {
    OrToken(op, t);
    hide OrText, NextOr, NextAnd;
    SkipBlanksDrops(st);
    DropOneSpace(OrText(op) + (" " + t));
    assert st.errs + [] == st.errs;
  }

  lemma AndReads(op: AndOrDifference, st: St, t: string)
    requires st.rest == " " + (AndOrText(op) + (" " + t))
    ensures ParseAnd(st) == Ok(After(st, " " + t, []), Operator(op))
  {
    AndToken(op, t);
    hide AndOrText, NextAnd;
    SkipBlanksDrops(st);
    DropOneSpace(AndOrText(op) + (" " + t));
    assert st.errs + [] == st.errs;
  }

  lemma SameNot(lib: Lib, op: NotOperator, a: ParsedExpr, v: ExprResult, es: seq<Diagnostic>)
    requires Reads(lib, a, v, es)
    ensures Reads(lib, Not(op, a), Negate(op, v), es)
    ensures Reads(lib, Parens(a), Enclose(v), es)
  {
    assert Leaves(Not(op, a)) == Leaves(a) && Leaves(Parens(a)) == Leaves(a);
  }

  /** A binary operation reads back when both operands do. */
  lemma SameBinary(lib: Lib, e: ParsedExpr, a: ParsedExpr, b: ParsedExpr,
                   v: ExprResult, va: ExprResult, vb: ExprResult, ea: seq<Diagnostic>, eb: seq<Diagnostic>)
    requires Reads(lib, a, va, ea) && Reads(lib, b, vb, eb) && Leaves(e) == Leaves(a) + Leaves(b)
    requires Same(v, e) <==> Same(va, a) && Same(vb, b)
    ensures Reads(lib, e, v, ea + eb)
  {
    AllPrintableSplit(lib, e, a, b);
    NoEmptyTextSplit(e, a, b);
    hide AllPrintable, NoEmptyText, Same;
  }

  lemma CombineSame(op: AndOrDifference, a: ParsedExpr, b: ParsedExpr, va: ExprResult, vb: ExprResult)
    ensures Same(CombineAnd(Operator(op), va, vb), AndNode(op, a, b)) <==> Same(va, a) && Same(vb, b)
    ensures Print(AndNode(op, a, b)) == Print(a) + (" " + (AndOrText(op) + (" " + Print(b))))
    ensures Leaves(AndNode(op, a, b)) == Leaves(a) + Leaves(b)
  {
    match op
    case And(_) =>
    case Subtract(_) =>
  }

  function AndNode(op: AndOrDifference, a: ParsedExpr, b: ParsedExpr): ParsedExpr {
    match op
    case And(o) => Intersection(o, a, b)
    case Subtract(o) => Difference(o, a, b)
  }

  lemma Reassociate(a: string, op: string, b: string, t: string)
    ensures (a + (" " + (op + (" " + b)))) + t == a + (" " + (op + (" " + (b + t))))
  {
  }

  lemma AfterAfter(st: St, t: string, t': string, es: seq<Diagnostic>, es': seq<Diagnostic>)
    requires |t'| <= |t| <= |st.rest|
    ensures After(After(st, t, es), t', es') == After(st, t', es + es')
  {
  }

  /** No `and` (or no `or`) operator starts here. */
  predicate NoAnd(t: string) {
    NextAnd(DropBlanks(t)).None?
  }

  predicate NoOr(t: string) {
    NextOr(DropBlanks(t)).None?
  }

  lemma LoopsStop(lib: Lib, st: St, v: ExprResult)
    ensures NoAnd(st.rest) ==> AndLoop(lib, st, v) == (st, v)
    ensures NoOr(st.rest) ==> OrLoop(lib, st, v) == (st, v)
  {
    SkipBlanksDrops(st);
  }

  lemma NothingAtClose(t: string)
    ensures NoAnd(")" + t) && NoOr(")" + t)
  {
    assert (")" + t)[0] == ')';
  }

  lemma AfterSame(st: St, st1: St, t: string, es: seq<Diagnostic>)
    requires |t| <= |st1.rest| <= |st.rest| && st1 == After(st, st1.rest, [])
    ensures After(st1, t, es) == After(st, t, es)
  {
  }

  lemma NotStep(lib: Lib, op: NotOperator, st: St, x: string, t: string, v: ExprResult, es: seq<Diagnostic>)
    requires DropBlanks(st.rest) == NotText(op) + (" " + x) && |t| <= |x|
    requires |x| < |st.rest|
    requires var st2 := After(st, " " + x, []); ParseBasic(lib, st2) == Ok(After(st2, t, es), v)
    ensures ParseBasic(lib, st) == Ok(After(st, t, es), Negate(op, v))
  {
    SkipBlanksDrops(st);
    var s := NotText(op) + (" " + x);
    NotReads(op, s, x);
    assert st.errs + [] == st.errs;
    assert SkipBlanks(st).Advance(|NotText(op)|) == After(st, " " + x, []);
    AfterSame(st, After(st, " " + x, []), t, es);
    hide SkipBlanks, DropBlanks, FirstName, NextNot, NotText;
  }

  lemma ParensStep(lib: Lib, st: St, x: string, t: string, v: ExprResult, es: seq<Diagnostic>)
    requires DropBlanks(st.rest) == "(" + x && |t| < |x| < |st.rest|
    requires var st2 := After(st, x, []); ParseOrs(lib, st2) == (After(st2, ")" + t, es), v)
    ensures ParseBasic(lib, st) == Ok(After(st, t, es), Enclose(v))
  {
    SkipBlanksDrops(st);
    OpenReads("(" + x, x);
    assert st.errs + [] == st.errs;
    assert SkipBlanks(st).Advance(1) == After(st, x, []);
    ExpectCharReads(After(After(st, x, []), ")" + t, es), ')', ExpectedCloseParenthesis, t);
    hide SkipBlanks, DropBlanks, FirstName, NextNot, ParseOrs;
  }

  lemma {:induction false} BasicReads(lib: Lib, e: ParsedExpr, st: St, t: string)
    returns (v: ExprResult, es: seq<Diagnostic>)
    requires IsBasic(e) && NormalForm(e) && AllClosed(e) && DropBlanks(st.rest) == Print(e) + t
    ensures |t| < |st.rest| && ParseBasic(lib, st) == Ok(After(st, t, es), v)
    ensures Reads(lib, e, v, es)
    decreases e, 0
  {
    match e
    case Set(l) =>
      assert l in Leaves(e);
      v, es := SetReads(lib, l, st, t);
    case Not(op, a) =>
      var x := Print(a) + t;
      assert Print(e) + t == NotText(op) + (" " + x);
      PrintStartsHere(a, t);
      assert AllClosed(a);
      hide DropBlanks, Print, Leaves, Reads, ParseBasic;
      v, es := BasicReads(lib, a, After(st, " " + x, []), t);
      NotStep(lib, op, st, x, t, v, es);
      SameNot(lib, op, a, v, es);
      v := Negate(op, v);
    case Parens(a) =>
      var x := Print(a) + (")" + t);
      assert Print(e) + t == "(" + x;
      PrintStartsHere(a, ")" + t);
      assert AllClosed(a);
      NothingAtClose(t);
      hide DropBlanks, Print, Leaves, Reads, ParseBasic, NoAnd, NoOr;
      v, es := OrsReads(lib, a, After(st, x, []), ")" + t);
      LoopsStop(lib, After(After(st, x, []), ")" + t, es), v);
      ParensStep(lib, st, x, t, v, es);
      SameNot(lib, LiteralNot, a, v, es);
      v := Enclose(v);
  }

  /** One turn of the `and` loop, over a printed operator and operand. */
  lemma AndStep(lib: Lib, op: AndOrDifference, st: St, x: string, t: string, acc: ExprResult, v: ExprResult,
                es: seq<Diagnostic>)
    requires st.rest == " " + (AndOrText(op) + (" " + x)) && |t| < |x|
    requires var st1 := After(st, " " + x, []); ParseBasic(lib, st1) == Ok(After(st1, t, es), v)
    ensures AndLoop(lib, st, acc) == AndLoop(lib, After(st, t, es), CombineAnd(Operator(op), acc, v))
  {
    AndReads(op, st, x);
    AfterSame(st, After(st, " " + x, []), t, es);
    assert st.errs + [] == st.errs;
    hide ParseBasic, ParseAnd, AndOrText, CombineAnd;
  }

  lemma OrStep(lib: Lib, op: OrOperator, st: St, x: string, t: string, acc: ExprResult, v: ExprResult,
               es: seq<Diagnostic>)
    requires st.rest == " " + (OrText(op) + (" " + x)) && |t| < |x|
    requires var st1 := After(st, " " + x, []); ParseAnds(lib, st1) == (After(st1, t, es), v)
    ensures OrLoop(lib, st, acc) == OrLoop(lib, After(st, t, es), CombineOr(Operator(op), acc, v))
  {
    OrReads(op, st, x);
    AfterSame(st, After(st, " " + x, []), t, es);
    assert st.errs + [] == st.errs;
    hide ParseAnds, ParseOr, OrText, CombineOr;
  }

  lemma {:induction false} AndsReads(lib: Lib, e: ParsedExpr, st: St, t: string)
    returns (v: ExprResult, es: seq<Diagnostic>)
    requires !e.Union? && NormalForm(e) && AllClosed(e) && DropBlanks(st.rest) == Print(e) + t
    ensures |t| < |st.rest| && ParseAnds(lib, st) == AndLoop(lib, After(st, t, es), v)
    ensures Reads(lib, e, v, es)
    decreases e, 1
  {
    if e.Intersection? {
      v, es := AndChainReads(lib, And(e.andOp), e.left, e.right, st, t);
    } else if e.Difference? {
      v, es := AndChainReads(lib, Subtract(e.diffOp), e.left, e.right, st, t);
    } else {
      hide Print, Reads;
      v, es := BasicReads(lib, e, st, t);
    }
  }

  /** The printed operator and right operand of a chain, up to `x`. */
  function Link(op: string, x: string): (s: string)
    ensures |s| > |x|
  {
    " " + (op + (" " + x))
  }

  lemma AndChainSplit(lib: Lib, op: AndOrDifference, a: ParsedExpr, b: ParsedExpr, t: string)
    ensures Print(AndNode(op, a, b)) + t == Print(a) + Link(AndOrText(op), Print(b) + t)
    ensures AllClosed(AndNode(op, a, b)) <==> AllClosed(a) && AllClosed(b)
    ensures Leaves(AndNode(op, a, b)) == Leaves(a) + Leaves(b)
    ensures |t| < |Print(b) + t| && DropBlanks(" " + (Print(b) + t)) == Print(b) + t
  {
    CombineSame(op, a, b, ExprResult.Error, ExprResult.Error);
    Reassociate(Print(a), AndOrText(op), Print(b), t);
    AllClosedSplit(AndNode(op, a, b), a, b);
    PrintStart(b);
    PrintStartsHere(b, t);
  }

  lemma {:induction false} AndChainReads(lib: Lib, op: AndOrDifference, a: ParsedExpr, b: ParsedExpr, st: St, t: string)
    returns (v: ExprResult, es: seq<Diagnostic>)
    requires !a.Union? && IsBasic(b) && NormalForm(a) && NormalForm(b)
    requires AllClosed(AndNode(op, a, b)) && DropBlanks(st.rest) == Print(AndNode(op, a, b)) + t
    ensures |t| < |st.rest| && ParseAnds(lib, st) == AndLoop(lib, After(st, t, es), v)
    ensures Reads(lib, AndNode(op, a, b), v, es)
    decreases AndNode(op, a, b), 0
  {
    var e, x := AndNode(op, a, b), Print(b) + t;
    var rest := Link(AndOrText(op), x);
    AndChainSplit(lib, op, a, b, t);
    hide DropBlanks, Print, AndOrText, Reads, AllClosed, AndLoop, ParseBasic, ParseAnds, Leaves;
    var va, ea := AndsReads(lib, a, st, rest);
    var st1 := After(st, rest, ea);
    var vb, eb := BasicReads(lib, b, After(st1, " " + x, []), t);
    AndStep(lib, op, st1, x, t, va, vb, eb);
    AfterAfter(st, rest, t, ea, eb);
    v, es := CombineAnd(Operator(op), va, vb), ea + eb;
    CombineSame(op, a, b, va, vb);
    SameBinary(lib, e, a, b, v, va, vb, ea, eb);
  }

  lemma {:induction false} OrsReads(lib: Lib, e: ParsedExpr, st: St, t: string)
    returns (v: ExprResult, es: seq<Diagnostic>)
    requires NormalForm(e) && AllClosed(e) && DropBlanks(st.rest) == Print(e) + t && NoAnd(t)
    ensures |t| < |st.rest| && ParseOrs(lib, st) == OrLoop(lib, After(st, t, es), v)
    ensures Reads(lib, e, v, es)
    decreases e, 2
  {
    if e.Union? {
      v, es := OrChainReads(lib, e.orOp, e.left, e.right, st, t);
    } else {
      hide Print, Reads, NoAnd, AndLoop, DropBlanks;
      v, es := AndsReads(lib, e, st, t);
      LoopsStop(lib, After(st, t, es), v);
    }
  }

  lemma OrChainSplit(lib: Lib, op: OrOperator, a: ParsedExpr, b: ParsedExpr, t: string)
    ensures Print(Union(op, a, b)) + t == Print(a) + Link(OrText(op), Print(b) + t)
    ensures AllClosed(Union(op, a, b)) <==> AllClosed(a) && AllClosed(b)
    ensures |t| < |Print(b) + t| && DropBlanks(" " + (Print(b) + t)) == Print(b) + t
    ensures NoAnd(Link(OrText(op), Print(b) + t))
  {
    Reassociate(Print(a), OrText(op), Print(b), t);
    AllClosedSplit(Union(op, a, b), a, b);
    PrintStart(b);
    PrintStartsHere(b, t);
    OrToken(op, Print(b) + t);
    DropOneSpace(OrText(op) + (" " + (Print(b) + t)));
  }

  lemma {:induction false} OrChainReads(lib: Lib, op: OrOperator, a: ParsedExpr, b: ParsedExpr, st: St, t: string)
    returns (v: ExprResult, es: seq<Diagnostic>)
    requires !b.Union? && NormalForm(a) && NormalForm(b)
    requires AllClosed(Union(op, a, b)) && DropBlanks(st.rest) == Print(Union(op, a, b)) + t && NoAnd(t)
    ensures |t| < |st.rest| && ParseOrs(lib, st) == OrLoop(lib, After(st, t, es), v)
    ensures Reads(lib, Union(op, a, b), v, es)
    decreases Union(op, a, b), 0
  {
    var e, x := Union(op, a, b), Print(b) + t;
    var rest := Link(OrText(op), x);
    OrChainSplit(lib, op, a, b, t);
    hide DropBlanks, Print, OrText, Reads, AllClosed, AndLoop, OrLoop, ParseAnds, ParseOrs, NoAnd;
    var va, ea := OrsReads(lib, a, st, rest);
    var st1 := After(st, rest, ea);
    var st2 := After(st1, " " + x, []);
    var vb, eb := AndsReads(lib, b, st2, t);
    LoopsStop(lib, After(st2, t, eb), vb);
    OrStep(lib, op, st1, x, t, va, vb, eb);
    AfterAfter(st, rest, t, ea, eb);
    v, es := CombineOr(Operator(op), va, vb), ea + eb;
    SameBinary(lib, e, a, b, v, va, vb, ea, eb);
  }

  // ----- the round trip -----

  lemma AcceptedClosed(lib: Lib, e: ParsedExpr)
    requires AllAccepted(lib, e)
    ensures AllClosed(e)
  {
    forall l <- Leaves(e)
      ensures LeafClosed(l)
    {
      assert LeafAccepted(lib, l);
    }
  }

  lemma {:induction false} StripLeaves(e: ParsedExpr)
    ensures |Leaves(Strip(e))| == |Leaves(e)|
    ensures forall i | 0 <= i < |Leaves(e)| :: Leaves(Strip(e))[i] == StripLeaf(Leaves(e)[i])
    ensures NormalForm(Strip(e)) == NormalForm(e) && IsBasic(Strip(e)) == IsBasic(e) && Strip(e).Union? == e.Union?
  {
    match e
    case Not(_, a) => StripLeaves(a);
    case Union(_, a, b) => StripLeaves(a); StripLeaves(b);
    case Intersection(_, a, b) => StripLeaves(a); StripLeaves(b);
    case Difference(_, a, b) => StripLeaves(a); StripLeaves(b);
    case Parens(a) => StripLeaves(a);
    case Set(_) =>
  }

  /** Trees that are the same up to spans are in normal form, and closed, together. */
  lemma SameShape(a: ParsedExpr, b: ParsedExpr)
    requires Strip(a) == Strip(b)
    ensures NormalForm(a) == NormalForm(b)
    ensures AllClosed(a) ==> AllClosed(b)
  {
    StripLeaves(a);
    StripLeaves(b);
    forall l <- Leaves(b) | AllClosed(a)
      ensures LeafClosed(l)
    {
      var i :| 0 <= i < |Leaves(b)| && Leaves(b)[i] == l;
      assert StripLeaf(Leaves(a)[i]) == StripLeaf(l) && Leaves(a)[i] in Leaves(a);
    }
  }

  lemma PrintableClosed(lib: Lib, e: ParsedExpr)
    requires AllPrintable(lib, e)
    ensures AllClosed(e)
  {
    forall l <- Leaves(e)
      ensures LeafClosed(l)
    {
      assert LeafPrintable(lib, l);
    }
  }

  /** Only closed normal forms can come back, whatever the input. */
  lemma SameOnlyIf(lib: Lib, input: string, e: ParsedExpr)
    requires Same(Parse(lib, input).1, e)
    ensures NormalForm(e) && AllClosed(e)
  {
    ParseSound(lib, input);
    var r := Parse(lib, input).1;
    hide Parse, AllAccepted, AllClosed;
    AcceptedClosed(lib, r.expr);
    SameShape(r.expr, e);
  }

  lemma NormalReads(lib: Lib, e: ParsedExpr)
    requires NormalForm(e) && AllClosed(e)
    ensures var (st, r) := Parse(lib, Print(e));
            st.rest == "" && Reads(lib, e, r, st.errs)
  {
    var st0 := St(0, Print(e), []);
    PrintStartsHere(e, "");
    assert Print(e) + "" == Print(e);
    assert NoAnd("") && NoOr("");
    hide Print, NoAnd, NoOr, AllClosed, Reads, ParseOrs, OrLoop, Leaves, DropBlanks;
    var v, es := OrsReads(lib, e, st0, "");
    LoopsStop(lib, After(st0, "", es), v);
    assert st0.errs + es == es;
  }

  /** Parsing the printed form of a tree gives that tree back exactly when the tree is
      in normal form and all its leaves are printable. Then all input is read, and no
      error is reported exactly when no argument is empty. */
  lemma PrintParse(lib: Lib, e: ParsedExpr)
    ensures var (st, r) := Parse(lib, Print(e));
            && (Same(r, e) <==> NormalForm(e) && AllPrintable(lib, e))
            && (Same(r, e) ==> st.rest == "" && (st.errs == [] <==> NoEmptyText(e)))
  {
    if Same(Parse(lib, Print(e)).1, e) {
      SameOnlyIf(lib, Print(e), e);
    }
    if AllPrintable(lib, e) {
      PrintableClosed(lib, e);
    }
    hide Parse, Print, Same, AllPrintable, AllClosed, NoEmptyText;
    if NormalForm(e) && AllClosed(e) {
      NormalReads(lib, e);
    }
  }
}
