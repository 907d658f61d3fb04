/** Filtersets end to end: from text to answers about tests. */
module Filterset {
  import opened Wrappers
  import opened FiltersetSyntax
  import opened FiltersetPrinter
  import opened FiltersetCompile
  import opened FiltersetEval
  import P = FiltersetParser
  import ParserState
  import opened ParserSoundness
  import RT = ExpressionRoundTrip
  import StreamParser

  // ----- what an expression means -----

  /** Membership of one test, given membership in the leaf sets: `-` is set difference
      and parentheses only group. */
  predicate Meaning(e: ParsedExpr, holds: ParsedLeaf -> bool) {
    match e
    case Not(_, a) => !Meaning(a, holds)
    case Union(_, a, b) => Meaning(a, holds) || Meaning(b, holds)
    case Intersection(_, a, b) => Meaning(a, holds) && Meaning(b, holds)
    case Difference(_, a, b) => Meaning(a, holds) && !Meaning(b, holds)
    case Parens(a) => Meaning(a, holds)
    case Set(l) => holds(l)
  }

  /** Adding the parentheses a tree needs does not change what it means. */
  lemma {:induction false} NormalizeKeepsMeaning(e: ParsedExpr, holds: ParsedLeaf -> bool)
    ensures Meaning(Normalize(e), holds) == Meaning(e, holds)
  {
    match e
    case Not(_, a) => NormalizeKeepsMeaning(a, holds);
    case Union(_, a, b) => NormalizeKeepsMeaning(a, holds); NormalizeKeepsMeaning(b, holds);
    case Intersection(_, a, b) => NormalizeKeepsMeaning(a, holds); NormalizeKeepsMeaning(b, holds);
    case Difference(_, a, b) => NormalizeKeepsMeaning(a, holds); NormalizeKeepsMeaning(b, holds);
    case Parens(a) => NormalizeKeepsMeaning(a, holds);
    case Set(_) =>
  }

  /** Some workspace package that matches `m` stands in the relation to the test's own
      workspace package. */
  ghost predicate SomePackage(cx: Cx, m: NameMatcher, id: string, related: (string, string) -> bool) {
    exists own, p :: own in cx.graph.packages && p in cx.graph.packages
      && own.id == id && IsMatch(cx.ps, m, p.name) && related(p.id, own.id)
  }

  /** What each predicate says about a test, in the words of the reference. */
  ghost predicate LeafHolds(cx: Cx, q: TestQuery, isMember: (TestQuery, NameMatcher) -> bool, inDefault: bool,
                            l: ParsedLeaf) {
    match l
    case All => true
    case Nothing => false
    case Default(_) => inDefault
    case PlatformIs(p, _) => q.binary.platform == p
    case Matching(p, m, _) =>
      match p
      case Package => SomePackage(cx, m, q.binary.packageId, (a, b) => a == b)
      case Deps => SomePackage(cx, m, q.binary.packageId, (a, b) => DependsOn(cx.graph, a, b))
      case Rdeps => SomePackage(cx, m, q.binary.packageId, (a, b) => DependsOn(cx.graph, b, a))
      case Kind => IsMatch(cx.ps, m, q.binary.kind)
      case Binary => IsMatch(cx.ps, m, q.binary.binaryName)
      case BinaryId => IsMatch(cx.ps, m, q.binary.binaryId)
      case Test => IsMatch(cx.ps, m, q.testName)
      case Group => isMember(q, m)
  }

  /** The compiled leaf accepts a test just when the predicate holds of it. */
  lemma LeafPreserved(cx: Cx, env: Env, l: ParsedLeaf, q: TestQuery, isMember: (TestQuery, NameMatcher) -> bool,
                      inDefault: bool)
    requires env.ps == cx.ps && MatchesTest(env, 0, env.defaultFilter, q, NoGroups) == Value(inDefault)
    ensures LeafMatchesTest(env, 1, CompileLeaf(cx, l), q, WithGroups(isMember))
            == Value(LeafHolds(cx, q, isMember, inDefault, l))
  {
    if l.Matching? && (l.pred == Package || l.pred == Deps || l.pred == Rdeps) {
      PackageLeafPreserved(cx, l.pred, l.matcher, q.binary.packageId);
    }
  }

  lemma PackageLeafPreserved(cx: Cx, p: Predicate, m: NameMatcher, id: string)
    requires p == Package || p == Deps || p == Rdeps
    ensures id in PackageSet(cx, p, m) <==>
            SomePackage(cx, m, id,
              if p == Package then (a, b) => a == b
              else if p == Deps then (a, b) => DependsOn(cx.graph, a, b)
              else (a, b) => DependsOn(cx.graph, b, a))
  {
    if p != Package && id in PackageSet(cx, p, m) {
      var own, r :| own in cx.graph.packages && own.id == id && r in MatchingPackages(cx, m)
                    && if p == Deps then DependsOn(cx.graph, r, id) else DependsOn(cx.graph, id, r);
      var q :| q in cx.graph.packages && IsMatch(cx.ps, m, q.name) && q.id == r;
    }
  }

  /** Whether a leaf can select anything in the workspace: a test of some package, a binary,
      or a test group, when the groups are known; what is not listed there is not asked. */
  ghost predicate SelectsSomething(cx: Cx, isMember: (TestQuery, NameMatcher) -> bool, l: ParsedLeaf)
    requires l.Matching?
  {
    match l.pred
    case Kind => true
    case Test => true
    case Binary => exists n <- cx.graph.binaryNames :: IsMatch(cx.ps, l.matcher, n)
    case BinaryId => exists n <- cx.graph.binaryIds :: IsMatch(cx.ps, l.matcher, n)
    case Group =>
      cx.known.Known? ==> exists g <- {GLOBAL_TEST_GROUP} + cx.known.customGroups :: IsMatch(cx.ps, l.matcher, g)
    case _ => exists q: TestQuery :: LeafHolds(cx, q, isMember, false, l)
  }

  /** A leaf is reported exactly when it can select nothing. */
  lemma LeafErrorExact(cx: Cx, isMember: (TestQuery, NameMatcher) -> bool, l: ParsedLeaf)
    requires l.Matching?
    ensures LeafError(cx, l) == None <==> SelectsSomething(cx, isMember, l)
  {
    match l.pred
    case Kind =>
    case Test =>
    case Binary => AnyNameMatchesExact(cx, l.matcher, cx.graph.binaryNames);
    case BinaryId => AnyNameMatchesExact(cx, l.matcher, cx.graph.binaryIds);
    case Group =>
      if cx.known.Known? {
        GroupErrorExact(cx, l.matcher);
      }
    case _ => PackageErrorExact(cx, isMember, l);
  }

  lemma GroupErrorExact(cx: Cx, m: NameMatcher)
    requires cx.known.Known?
    ensures MatchesKnownGroup(cx, m) <==>
            exists g <- {GLOBAL_TEST_GROUP} + cx.known.customGroups :: IsMatch(cx.ps, m, g)
  {
    AnyNameMatchesExact(cx, m, cx.known.customGroups);
  }

  lemma PackageErrorExact(cx: Cx, isMember: (TestQuery, NameMatcher) -> bool, l: ParsedLeaf)
    requires l.Matching? && (l.pred == Package || l.pred == Deps || l.pred == Rdeps)
    ensures PackageSet(cx, l.pred, l.matcher) != {} <==> exists q: TestQuery :: LeafHolds(cx, q, isMember, false, l)
  {
    forall q: TestQuery
      ensures LeafHolds(cx, q, isMember, false, l) <==> q.binary.packageId in PackageSet(cx, l.pred, l.matcher)
    {
      PackageLeafPreserved(cx, l.pred, l.matcher, q.binary.packageId);
    }
    if id :| id in PackageSet(cx, l.pred, l.matcher) {
      var q := TestQuery(BinaryQuery(id, "", "", "", Target), "");
      assert LeafHolds(cx, q, isMember, false, l);
    }
  }

  /** Compilation preserves meaning: with the default filter free of `default()` and
      `group()`, evaluating the compiled expression never panics, never recurses past
      the default filter, and gives the meaning of the parsed one. */
  lemma {:induction false} CompilePreserves(cx: Cx, env: Env, e: ParsedExpr, q: TestQuery,
                                            isMember: (TestQuery, NameMatcher) -> bool, inDefault: bool)
    requires env.ps == cx.ps && MatchesTest(env, 0, env.defaultFilter, q, NoGroups) == Value(inDefault)
    ensures MatchesTest(env, 1, CompileExpr(cx, e), q, WithGroups(isMember))
            == Value(Meaning(e, l => LeafHolds(cx, q, isMember, inDefault, l)))
  {
    match e
    case Set(l) => LeafPreserved(cx, env, l, q, isMember, inDefault);
    case Not(_, a) => CompilePreserves(cx, env, a, q, isMember, inDefault);
    case Parens(a) => CompilePreserves(cx, env, a, q, isMember, inDefault);
    case Union(_, a, b) =>
      CompilePreserves(cx, env, a, q, isMember, inDefault);
      CompilePreserves(cx, env, b, q, isMember, inDefault);
    case Intersection(_, a, b) =>
      CompilePreserves(cx, env, a, q, isMember, inDefault);
      CompilePreserves(cx, env, b, q, isMember, inDefault);
    case Difference(_, a, b) =>
      CompilePreserves(cx, env, a, q, isMember, inDefault);
      CompilePreserves(cx, env, b, q, isMember, inDefault);
  }

  // ----- what the bans guarantee -----

  lemma {:induction false} CompiledLeaves(cx: Cx, e: ParsedExpr)
    ensures HasGroup(CompileExpr(cx, e)) <==> exists l <- Leaves(e) :: IsGroup(l)
    ensures HasDefault(CompileExpr(cx, e)) <==> exists l <- Leaves(e) :: l.Default?
    ensures HasTest(CompileExpr(cx, e)) <==> exists l <- Leaves(e) :: IsTest(l)
  {
    match e
    case Set(l) => assert Leaves(e) == [l] && l in [l];
    case Not(_, a) => CompiledLeaves(cx, a);
    case Parens(a) => CompiledLeaves(cx, a);
    case Union(_, a, b) => CompiledLeaves(cx, a); CompiledLeaves(cx, b);
    case Intersection(_, a, b) => CompiledLeaves(cx, a); CompiledLeaves(cx, b);
    case Difference(_, a, b) =>
      CompiledLeaves(cx, a);
      CompiledLeaves(cx, b);
      NotKeepsLeaves(CompileExpr(cx, b));
  }

  lemma NotKeepsLeaves(c: CompiledExpr)
    ensures HasGroup(CompiledExpr.Not(c)) == HasGroup(c)
    ensures HasDefault(CompiledExpr.Not(c)) == HasDefault(c)
    ensures HasTest(CompiledExpr.Not(c)) == HasTest(c)
  {
  }

  predicate IsTest(l: ParsedLeaf) {
    l.Matching? && l.pred == Test
  }

  predicate HasTest(e: CompiledExpr) {
    HasLeaf(e, (l: FiltersetLeaf) => l.Named? && l.attr == ByTest)
  }

  lemma {:induction false} NoComplaints(leaves: seq<ParsedLeaf>, f: ParsedLeaf -> Option<ErrorKind>)
    requires forall l: ParsedLeaf :: (l.All? || l.Nothing?) ==> f(l) == None
    ensures Complaints(leaves, f) == [] <==> forall l <- leaves :: f(l) == None
  {
    if leaves != [] {
      NoComplaints(leaves[1..], f);
      assert leaves == [leaves[0]] + leaves[1..];
    }
  }

  /** Compilation panics exactly when group names are unavailable to a plain test filter
      that uses `group()`: for every other kind the ban comes first. What it accepts has
      no leaf that its kind bans, and every remaining leaf selects something there is. */
  lemma BansHold(cx: Cx, kind: FiltersetKind, e: ParsedExpr)
    ensures CompileSpec(cx, kind, e).Panicked? <==> kind.TestFilter? && AsksUnknownGroups(cx, e)
    ensures CompileSpec(cx, kind, e).Compiled? ==>
              && (forall l <- Leaves(e) :: Banned(kind, l) == None && LeafError(cx, l) == None)
              && var c := CompileSpec(cx, kind, e).expr;
                 && (!kind.TestFilter? ==> !HasGroup(c))
                 && (kind.TestArchive? ==> !HasTest(c))
                 && (kind.DefaultFilter? ==> !HasDefault(c))
  {
    NoComplaints(Leaves(e), l => Banned(kind, l));
    NoComplaints(Leaves(e), l => LeafError(cx, l));
    CompiledLeaves(cx, e);
  }

  /** With a default filter compiled as such, any compiled expression gives a value for
      every test, one level of `default()` deep, and it is the meaning of its source. */
  lemma EvaluationIsTotal(cx: Cx, kind: FiltersetKind, e: ParsedExpr, d: ParsedExpr, env: Env, q: TestQuery,
                          isMember: (TestQuery, NameMatcher) -> bool)
    requires CompileSpec(cx, DefaultFilter, d) == Compiled(env.defaultFilter) && env.ps == cx.ps
    requires CompileSpec(cx, kind, e).Compiled?
    ensures var c := CompileSpec(cx, kind, e).expr;
            var inDefault := Meaning(d, l => LeafHolds(cx, q, isMember, false, l));
            var wanted := Meaning(e, l => LeafHolds(cx, q, isMember, inDefault, l));
            && (forall depth: nat :: depth > 0 ==> MatchesTest(env, depth, c, q, WithGroups(isMember)) == Value(wanted))
            && (!HasGroup(c) ==> MatchesTest(env, 1, c, q, NoGroups) == Value(wanted))
  {
    var c := CompileSpec(cx, kind, e).expr;
    var df := env.defaultFilter;
    BansHold(cx, DefaultFilter, d);
    CompiledIs(cx, DefaultFilter, d);
    CompiledIs(cx, kind, e);
    var inDefault := Meaning(d, l => LeafHolds(cx, q, isMember, false, l));
    DefaultFilterMeaning(cx, env, d, q, isMember);
    CompilePreserves(cx, env, e, q, isMember, inDefault);
    EvaluationEnds(env, c, q, WithGroups(isMember));
    if !HasGroup(c) {
      GroupFreeIgnoresLookup(env, 1, c, q, isMember);
    }
  }

  lemma CompiledIs(cx: Cx, kind: FiltersetKind, e: ParsedExpr)
    requires CompileSpec(cx, kind, e).Compiled?
    ensures CompileSpec(cx, kind, e).expr == CompileExpr(cx, e)
  {
  }

  /** The default filter itself means what its source says, with or without groups. */
  lemma DefaultFilterMeaning(cx: Cx, env: Env, d: ParsedExpr, q: TestQuery, isMember: (TestQuery, NameMatcher) -> bool)
    requires env.ps == cx.ps && env.defaultFilter == CompileExpr(cx, d)
    requires !HasDefault(env.defaultFilter) && !HasGroup(env.defaultFilter)
    ensures MatchesTest(env, 0, env.defaultFilter, q, NoGroups)
            == Value(Meaning(d, l => LeafHolds(cx, q, isMember, false, l)))
  {
    var df := env.defaultFilter;
    var plain := Env(env.ps, CompiledExpr.Set(NoTests));
    assert MatchesTest(plain, 0, plain.defaultFilter, q, NoGroups) == Value(false);
    CompilePreserves(cx, plain, d, q, isMember, false);
    GroupFreeIgnoresLookup(plain, 1, df, q, isMember);
    NoDefaultAnyDepth(plain, 1, df, q, NoGroups);
    NoDefaultAnyFilter(env, plain, df, q, NoGroups);
  }

  lemma {:induction false} GroupFreeIgnoresLookup(env: Env, depth: nat, e: CompiledExpr, q: TestQuery,
                                                 isMember: (TestQuery, NameMatcher) -> bool)
    requires !HasGroup(e)
    ensures MatchesTest(env, depth, e, q, NoGroups) == MatchesTest(env, depth, e, q, WithGroups(isMember))
  {
    match e
    case Set(_) =>
    case Not(a) => GroupFreeIgnoresLookup(env, depth, a, q, isMember);
    case Union(a, b) =>
      GroupFreeIgnoresLookup(env, depth, a, q, isMember);
      GroupFreeIgnoresLookup(env, depth, b, q, isMember);
    case Intersection(a, b) =>
      GroupFreeIgnoresLookup(env, depth, a, q, isMember);
      GroupFreeIgnoresLookup(env, depth, b, q, isMember);
  }

  lemma {:induction false} NoDefaultAnyFilter(env: Env, env': Env, e: CompiledExpr, q: TestQuery, groups: Groups)
    requires env.ps == env'.ps && !HasDefault(e)
    ensures MatchesTest(env, 0, e, q, groups) == MatchesTest(env', 0, e, q, groups)
  {
    match e
    case Set(_) =>
    case Not(a) => NoDefaultAnyFilter(env, env', a, q, groups);
    case Union(a, b) => NoDefaultAnyFilter(env, env', a, q, groups); NoDefaultAnyFilter(env, env', b, q, groups);
    case Intersection(a, b) => NoDefaultAnyFilter(env, env', a, q, groups); NoDefaultAnyFilter(env, env', b, q, groups);
  }

  // ----- diagnostics in source order -----

  function SpansOf(leaves: seq<ParsedLeaf>): seq<Span> {
    if leaves == [] then [] else LeafSpans(leaves[0]) + SpansOf(leaves[1..])
  }

  function DiagnosticSpans(ds: seq<Diagnostic>): seq<Span> {
    if ds == [] then [] else [ds[0].span] + DiagnosticSpans(ds[1..])
  }

  lemma {:induction false} SpansOfConcat(a: seq<ParsedLeaf>, b: seq<ParsedLeaf>)
    ensures SpansOf(a + b) == SpansOf(a) + SpansOf(b)
  {
    if a == [] {
      assert a + b == b;
    } else {
      assert (a + b)[1..] == a[1..] + b;
      SpansOfConcat(a[1..], b);
    }
  }

  lemma {:induction false} SpansAreLeafSpans(e: ParsedExpr)
    ensures SpansOf(Leaves(e)) == Spans(e)
  {
    match e
    case Not(_, a) => SpansAreLeafSpans(a);
    case Parens(a) => SpansAreLeafSpans(a);
    case Union(_, a, b) => SpansAreLeafSpans(a); SpansAreLeafSpans(b); SpansOfConcat(Leaves(a), Leaves(b));
    case Intersection(_, a, b) => SpansAreLeafSpans(a); SpansAreLeafSpans(b); SpansOfConcat(Leaves(a), Leaves(b));
    case Difference(_, a, b) => SpansAreLeafSpans(a); SpansAreLeafSpans(b); SpansOfConcat(Leaves(a), Leaves(b));
    case Set(l) => assert SpansOf([l]) == LeafSpans(l) + [];
  }

  /** Complaining about some of the leaves, at most once each, keeps their order. */
  lemma {:induction false} ComplaintsInOrder(leaves: seq<ParsedLeaf>, f: ParsedLeaf -> Option<ErrorKind>, lo: nat,
                                             hi: nat)
    requires InOrder(SpansOf(leaves), lo, hi)
    ensures InOrder(DiagnosticSpans(Complaints(leaves, f)), lo, hi)
    ensures |Complaints(leaves, f)| <= |leaves|
    ensures SpansOf(leaves) == [] ==> Complaints(leaves, f) == []
  {
    if leaves != [] {
      hide InOrder;
      var l, rest := leaves[0], SpansOf(leaves[1..]);
      if LeafSpans(l) == [] {
        assert [] + rest == rest;
        ComplaintsInOrder(leaves[1..], f, lo, hi);
        assert Complaints(leaves, f) == Complaints(leaves[1..], f);
      } else {
        assert SpansOf(leaves)[1..] == rest;
        InOrderTail(SpansOf(leaves), lo, hi);
        ComplaintsInOrder(leaves[1..], f, l.span.End() + 1, hi);
        ConsInOrder(l, f, Complaints(leaves[1..], f), lo, hi);
      }
    }
  }

  lemma ConsInOrder(l: ParsedLeaf, f: ParsedLeaf -> Option<ErrorKind>, ds: seq<Diagnostic>, lo: nat, hi: nat)
    requires LeafSpans(l) != [] && lo <= l.span.offset && l.span.End() <= hi
    requires InOrder(DiagnosticSpans(ds), l.span.End() + 1, hi)
    ensures InOrder(DiagnosticSpans(LeafComplaint(l, f) + ds), lo, hi)
  {
    hide InOrder;
    if LeafComplaint(l, f) == [] {
      assert [] + ds == ds;
      InOrderWiden(DiagnosticSpans(ds), l.span.End() + 1, lo, hi);
    } else {
      var all := LeafComplaint(l, f) + ds;
      assert all[1..] == ds && DiagnosticSpans(all)[1..] == DiagnosticSpans(ds);
      InOrderHead(DiagnosticSpans(all), lo, hi);
    }
  }

  // ----- parsing and compiling a filterset -----

  datatype ParseOutcome = Parsed(parsed: ParsedExpr, compiled: CompiledExpr) | Errors(errors: seq<Diagnostic>) | Panics

  /** `Filterset::parse`: any error refuses the filterset, even when there is a tree. */
  function ParseFilterset(lib: Lib, cx: Cx, kind: FiltersetKind, input: string): ParseOutcome {
    var (st, r) := P.Parse(lib, input);
    if st.errs != [] then Errors(st.errs)
    else
      match r
      case Error => Errors([Diagnostic(Unknown, NO_SPAN)])
      case Valid(e) =>
        match CompileSpec(cx, kind, e)
        case Compiled(c) => Parsed(e, c)
        case Failed(errors) => Errors(errors)
        case Panicked => Panics
  }

  method ParseAndCompile(lib: Lib, cx: Cx, kind: FiltersetKind, input: string) returns (r: ParseOutcome)
    ensures r == ParseFilterset(lib, cx, kind, input)
  {
    var parser := new StreamParser.Parser(lib, input);
    assert parser.rest == parser.Now().rest;
    var e := parser.Parse();
    if parser.errors != [] {
      return Errors(parser.errors);
    }
    if e.Error? {
      return Errors([Diagnostic(Unknown, NO_SPAN)]);
    }
    var c := Compile(cx, kind, e.expr);
    match c
    case Compiled(x) => r := Parsed(e.expr, x);
    case Failed(errors) => r := Errors(errors);
    case Panicked => r := Panics;
  }

  /** `ParsedExpr::parse`: a tree is returned even when errors were reported. */
  function ParseOnly(lib: Lib, input: string): (Option<ParsedExpr>, seq<Diagnostic>) {
    var (st, r) := P.Parse(lib, input);
    (if r.Valid? then Some(r.expr) else None, st.errs)
  }

  /** For every input: a refusal names at least one error and never the internal one;
      compile errors are in source order and at most one per leaf; an accepted
      filterset has been read to its end, is in normal form, and meets its bans. */
  lemma ParseFiltersetSound(lib: Lib, cx: Cx, kind: FiltersetKind, input: string)
    ensures match ParseFilterset(lib, cx, kind, input)
            case Errors(errors) =>
              && errors != []
              && (P.Parse(lib, input).0.errs == [] ==>
                    && P.Parse(lib, input).1.Valid?
                    && InOrder(DiagnosticSpans(errors), 0, |input|)
                    && |errors| <= |Leaves(P.Parse(lib, input).1.expr)|)
            case Panics => kind.TestFilter? && cx.known.Unavailable?
            case Parsed(e, c) =>
              && P.Parse(lib, input) == (ParserState.St(|input|, "", []), P.ExprResult.Valid(e))
              && NormalForm(e) && CompileSpec(cx, kind, e) == Compiled(c)
              && (!kind.TestFilter? ==> !HasGroup(c))
              && (kind.DefaultFilter? ==> !HasDefault(c))
  {
    ParseSound(lib, input);
    var (st, r) := P.Parse(lib, input);
    hide P.Parse, InOrder, Complaints, NormalForm, AllAccepted;
    if st.errs == [] {
      CompileErrorsInOrder(cx, kind, r.expr, |input|);
      BansHold(cx, kind, r.expr);
      assert st == ParserState.St(|input|, "", []);
    }
  }

  lemma CompileErrorsInOrder(cx: Cx, kind: FiltersetKind, e: ParsedExpr, end: nat)
    requires InOrder(Spans(e), 0, end)
    ensures match CompileSpec(cx, kind, e)
            case Failed(errors) => errors != [] && InOrder(DiagnosticSpans(errors), 0, end) && |errors| <= |Leaves(e)|
            case _ => true
  {
    hide InOrder;
    SpansAreLeafSpans(e);
    ComplaintsInOrder(Leaves(e), l => Banned(kind, l), 0, end);
    ComplaintsInOrder(Leaves(e), l => LeafError(cx, l), 0, end);
  }

  /** A printable tree with an empty argument, such as `test(=)`: reading its printed
      form gives the tree back, so `ParsedExpr::parse` accepts it, but an error has
      been reported too, so `Filterset::parse` refuses it. */
  lemma EmptyArgumentsDisagree(lib: Lib, cx: Cx, kind: FiltersetKind, e: ParsedExpr)
    requires NormalForm(e) && AllPrintable(lib, e)
    ensures ParseOnly(lib, Print(e)).0.Some? && Strip(ParseOnly(lib, Print(e)).0.value) == Strip(e)
    ensures !RT.NoEmptyText(e) ==> ParseFilterset(lib, cx, kind, Print(e)).Errors?
    ensures RT.NoEmptyText(e) ==> ParseOnly(lib, Print(e)).1 == []
  {
    RT.PrintParse(lib, e);
  }
}
