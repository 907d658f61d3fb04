/** When a filterset compiles, when it is refused and for what, from its kind and its leaves. */
module FiltersetOutcomes {
  import opened Wrappers
  import opened FiltersetSyntax
  import opened FiltersetCompile
  import opened FiltersetEval
  import opened Filterset
  import P = FiltersetParser

  predicate Is(l: ParsedLeaf, p: Predicate) {
    l.Matching? && l.pred == p
  }

  /** Group membership is settled by overrides, an archive is built before tests and groups
      are known, and the default filter is what `default()` stands for. */
  predicate Forbids(kind: FiltersetKind, l: ParsedLeaf, why: ErrorKind) {
    || (kind == OverrideFilter && Is(l, Group) && why == BannedPredicate(GroupCircularDependency))
    || (kind == TestArchive && Is(l, Test) && why == BannedPredicate(TestNotAvailableInArchive))
    || (kind == TestArchive && Is(l, Group) && why == BannedPredicate(GroupNotAvailableInArchive))
    || (kind == DefaultFilter && l.Default? && why == BannedPredicate(DefaultInfiniteRecursion))
    || (kind == DefaultFilter && Is(l, Group) && why == BannedPredicate(GroupNotAvailableInDefaultFilter))
  }

  /** The leaf can select nothing, and what it is said to be without. */
  ghost predicate Misses(cx: Cx, l: ParsedLeaf, why: ErrorKind) {
    && l.Matching? && !SelectsSomething(cx, NO_MEMBERS, l)
    && (Is(l, Binary) ==> why == NoBinaryNameMatch)
    && (Is(l, BinaryId) ==> why == NoBinaryIdMatch)
    && (Is(l, Group) ==> why == NoGroupMatch)
    && (!Is(l, Binary) && !Is(l, BinaryId) && !Is(l, Group) ==> why == NoPackageMatch)
  }

  /** What a leaf selects is asked apart from any group membership. */
  const NO_MEMBERS: (TestQuery, NameMatcher) -> bool := (_, _) => false

  /** The kind has no place for something that the compiled expression has. */
  predicate Clashes(kind: FiltersetKind, c: CompiledExpr) {
    || (kind == OverrideFilter && HasGroup(c))
    || (kind == TestArchive && (HasGroup(c) || HasTest(c)))
    || (kind == DefaultFilter && (HasGroup(c) || HasDefault(c)))
  }

  /** Each forbidden leaf is reported, where it stands and for its reason, and nothing else. */
  ghost predicate ReportsForbidden(kind: FiltersetKind, leaves: seq<ParsedLeaf>, errors: seq<Diagnostic>) {
    forall d :: d in errors <==> exists l :: l in leaves && Forbids(kind, l, d.kind) && d.span == l.span
  }

  /** So is each leaf that selects nothing. */
  ghost predicate ReportsMisses(cx: Cx, leaves: seq<ParsedLeaf>, errors: seq<Diagnostic>) {
    forall d :: d in errors <==> exists l :: l in leaves && Misses(cx, l, d.kind) && d.span == l.span
  }

  lemma {:induction false} ComplaintsAre(leaves: seq<ParsedLeaf>, f: ParsedLeaf -> Option<ErrorKind>, d: Diagnostic)
    requires forall l: ParsedLeaf :: (l.All? || l.Nothing?) ==> f(l) == None
    ensures d in Complaints(leaves, f)
            <==> exists l :: l in leaves && f(l) == Some(d.kind) && d.span == SpanOf(l)
  {
    if leaves != [] {
      ComplaintsAre(leaves[1..], f, d);
      assert leaves == [leaves[0]] + leaves[1..];
    }
  }

  function SpanOf(l: ParsedLeaf): Span {
    if l.All? || l.Nothing? then NO_SPAN else l.span
  }

  lemma BannedIs(kind: FiltersetKind, l: ParsedLeaf, why: ErrorKind)
    ensures Banned(kind, l) == Some(why) <==> Forbids(kind, l, why)
    ensures Forbids(kind, l, why) ==> !l.All? && !l.Nothing?
  {
  }

  lemma LeafErrorIs(cx: Cx, l: ParsedLeaf, why: ErrorKind)
    ensures LeafError(cx, l) == Some(why) <==> Misses(cx, l, why)
  {
    if l.Matching? {
      LeafErrorExact(cx, NO_MEMBERS, l);
      hide SelectsSomething, PackageSet, AnyNameMatches, MatchesKnownGroup;
    }
  }

  lemma BansAre(kind: FiltersetKind, leaves: seq<ParsedLeaf>)
    ensures ReportsForbidden(kind, leaves, Complaints(leaves, l => Banned(kind, l)))
  {
    var errors := Complaints(leaves, l => Banned(kind, l));
    forall d: Diagnostic
      ensures d in errors <==> exists l :: l in leaves && Forbids(kind, l, d.kind) && d.span == l.span
    {
      BanReported(kind, leaves, d);
    }
    hide Banned, Forbids, Complaints;
  }

  lemma BanReported(kind: FiltersetKind, leaves: seq<ParsedLeaf>, d: Diagnostic)
    ensures d in Complaints(leaves, l => Banned(kind, l))
            <==> exists l :: l in leaves && Forbids(kind, l, d.kind) && d.span == l.span
  {
    ComplaintsAre(leaves, l => Banned(kind, l), d);
    forall l: ParsedLeaf
      ensures Banned(kind, l) == Some(d.kind) <==> Forbids(kind, l, d.kind)
      ensures Forbids(kind, l, d.kind) ==> !l.All? && !l.Nothing?
    {
      BannedIs(kind, l, d.kind);
    }
    hide Complaints;
  }

  lemma MissesAre(cx: Cx, leaves: seq<ParsedLeaf>)
    ensures ReportsMisses(cx, leaves, Complaints(leaves, l => LeafError(cx, l)))
  {
    forall d: Diagnostic
      ensures d in Complaints(leaves, l => LeafError(cx, l))
              <==> exists l :: l in leaves && Misses(cx, l, d.kind) && d.span == l.span
    {
      ComplaintsAre(leaves, l => LeafError(cx, l), d);
      forall l: ParsedLeaf
        ensures LeafError(cx, l) == Some(d.kind) <==> Misses(cx, l, d.kind)
      {
        LeafErrorIs(cx, l, d.kind);
      }
      hide LeafError, Complaints, SelectsSomething;
    }
  }

  lemma ClashesExact(cx: Cx, kind: FiltersetKind, e: ParsedExpr)
    ensures Clashes(kind, CompileExpr(cx, e)) <==> exists l, why :: l in Leaves(e) && Forbids(kind, l, why)
  {
    var c := CompileExpr(cx, e);
    CompiledLeaves(cx, e);
    forall l | l in Leaves(e)
      ensures (exists why :: Forbids(kind, l, why))
              <==> (kind != TestFilter && Is(l, Group)) || (kind == TestArchive && Is(l, Test))
                   || (kind == DefaultFilter && l.Default?)
    {
      ForbidsSome(kind, l);
    }
    hide HasGroup, HasTest, HasDefault, CompileExpr, Forbids, Leaves;
  }

  lemma ForbidsSome(kind: FiltersetKind, l: ParsedLeaf)
    ensures (exists why :: Forbids(kind, l, why))
            <==> (kind != TestFilter && Is(l, Group)) || (kind == TestArchive && Is(l, Test))
                 || (kind == DefaultFilter && l.Default?)
  {
    if Banned(kind, l).Some? {
      BannedIs(kind, l, Banned(kind, l).value);
    }
  }

  /** The expression asks for a test group while the groups are not known. */
  predicate Blind(cx: Cx, e: ParsedExpr) {
    cx.known.Unavailable? && HasGroup(CompileExpr(cx, e))
  }

  /** The errors are those of the forbidden leaves, if there are any, and else those of the
      leaves that select nothing. */
  ghost predicate Refuses(cx: Cx, kind: FiltersetKind, e: ParsedExpr, errors: seq<Diagnostic>) {
    && errors != []
    && if Clashes(kind, CompileExpr(cx, e)) then ReportsForbidden(kind, Leaves(e), errors)
       else !Blind(cx, e) && ReportsMisses(cx, Leaves(e), errors)
  }

  /** Exactly what becomes of an expression. It compiles if its kind has a place for all it
      has, the test groups are known if it asks for one, and each of its leaves selects
      something. Leaves that the kind forbids are all reported, and nothing else then is; a
      plain test filter panics on a group while the groups are not known; and otherwise all
      leaves that select nothing are reported, and nothing else. */
  lemma OutcomeExact(cx: Cx, kind: FiltersetKind, e: ParsedExpr)
    ensures CompileSpec(cx, kind, e) == Compiled(CompileExpr(cx, e)) <==>
              && !Clashes(kind, CompileExpr(cx, e)) && !Blind(cx, e)
              && forall l <- Leaves(e) | l.Matching? :: SelectsSomething(cx, NO_MEMBERS, l)
    ensures CompileSpec(cx, kind, e).Compiled? ==> CompileSpec(cx, kind, e).expr == CompileExpr(cx, e)
    ensures CompileSpec(cx, kind, e) == Panicked <==> !Clashes(kind, CompileExpr(cx, e)) && Blind(cx, e)
    ensures CompileSpec(cx, kind, e).Failed? ==> Refuses(cx, kind, e, CompileSpec(cx, kind, e).errors)
  {
    var bans, errors := Complaints(Leaves(e), l => Banned(kind, l)), Complaints(Leaves(e), l => LeafError(cx, l));
    BansAre(kind, Leaves(e));
    MissesAre(cx, Leaves(e));
    ClashesExact(cx, kind, e);
    CompiledLeaves(cx, e);
    NoneForbidden(kind, Leaves(e), bans);
    NoneMisses(cx, Leaves(e), errors);
    hide Complaints, Banned, LeafError, CompileExpr, HasGroup, HasTest, HasDefault, Clashes, Leaves, SelectsSomething,
         ReportsForbidden, ReportsMisses, Forbids;
  }

  lemma NoneForbidden(kind: FiltersetKind, leaves: seq<ParsedLeaf>, errors: seq<Diagnostic>)
    requires ReportsForbidden(kind, leaves, errors)
    ensures errors == [] <==> !exists l, why :: l in leaves && Forbids(kind, l, why)
  {
    if errors != [] {
      assert errors[0] in errors;
    }
    forall l, why | l in leaves && Forbids(kind, l, why)
      ensures errors != []
    {
      assert Diagnostic(why, l.span) in errors;
    }
  }

  lemma NoneMisses(cx: Cx, leaves: seq<ParsedLeaf>, errors: seq<Diagnostic>)
    requires ReportsMisses(cx, leaves, errors)
    ensures errors == [] <==> forall l <- leaves | l.Matching? :: SelectsSomething(cx, NO_MEMBERS, l)
  {
    if errors != [] {
      assert errors[0] in errors;
    }
    forall l | l in leaves && l.Matching? && !SelectsSomething(cx, NO_MEMBERS, l)
      ensures errors != []
    {
      var why := if Is(l, Binary) then NoBinaryNameMatch else if Is(l, BinaryId) then NoBinaryIdMatch
                 else if Is(l, Group) then NoGroupMatch else NoPackageMatch;
      assert Misses(cx, l, why);
      assert Diagnostic(why, l.span) in errors;
    }
    hide SelectsSomething;
  }

  /** And of an input: read with an error it is refused with the errors of the parser, and
      read without one it fares as its tree does. */
  lemma ParseOutcomeExact(lib: Lib, cx: Cx, kind: FiltersetKind, input: string)
    requires P.Parse(lib, input).0.errs == []
    ensures P.Parse(lib, input).1.Valid?
    ensures var e := P.Parse(lib, input).1.expr;
            var r := ParseFilterset(lib, cx, kind, input);
            && (r == Parsed(e, CompileExpr(cx, e)) <==>
                  && !Clashes(kind, CompileExpr(cx, e)) && !Blind(cx, e)
                  && forall l <- Leaves(e) | l.Matching? :: SelectsSomething(cx, NO_MEMBERS, l))
            && (r.Parsed? ==> r.parsed == e && r.compiled == CompileExpr(cx, e))
            && (r == Panics <==> !Clashes(kind, CompileExpr(cx, e)) && Blind(cx, e))
            && (r.Errors? ==> Refuses(cx, kind, e, r.errors))
  {
    hide P.Parse, CompileSpec, CompileExpr, HasGroup, Clashes, Leaves, SelectsSomething, Refuses, Blind;
    ParseFiltersetSound(lib, cx, kind, input);
    OutcomeExact(cx, kind, P.Parse(lib, input).1.expr);
  }

  /** A plain value matches itself, and one to be contained matches wherever it stands. */
  lemma MatcherMeans(ps: Patterns, v: string, implicit: bool, s: string)
    ensures IsMatch(ps, Equal(v, implicit), s) <==> s == v
    ensures IsMatch(ps, Contains(v, implicit), s) <==> exists a: string, b: string :: s == a + v + b
  {
    if HasSubstring(s, v) {
      var i :| 0 <= i <= |s| && v <= s[i..];
      assert s == s[..i] + v + s[i + |v|..];
    }
    forall a: string, b: string | s == a + v + b
      ensures HasSubstring(s, v)
    {
      assert s[|a|..] == v + b;
    }
  }

  /** An exact name is one of a binary or of a test group there is: `@global` always is one,
      and so is each group of the configuration. */
  lemma NamedExactly(cx: Cx, v: string, implicit: bool, span: Span)
    ensures LeafError(cx, Matching(Binary, Equal(v, implicit), span))
            == if v in cx.graph.binaryNames then None else Some(NoBinaryNameMatch)
    ensures LeafError(cx, Matching(BinaryId, Equal(v, implicit), span))
            == if v in cx.graph.binaryIds then None else Some(NoBinaryIdMatch)
    ensures cx.known.Known? ==>
              LeafError(cx, Matching(Group, Equal(v, implicit), span))
              == if v == "@global" || v in cx.known.customGroups then None else Some(NoGroupMatch)
  {
    hide HasSubstring, PackageSet;
  }
}
