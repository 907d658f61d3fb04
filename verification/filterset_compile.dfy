/** Compiling a parsed expression against a package graph. */
module FiltersetCompile {
  import opened Wrappers
  import opened FiltersetSyntax
  import C = Collapse

  /** Pattern matching the model does not define. */
  datatype Patterns = Patterns(glob: (string, string) -> bool, regex: (string, string) -> bool)

  predicate HasSubstring(s: string, t: string) {
    exists i | 0 <= i <= |s| :: t <= s[i..]
  }

  predicate IsMatch(ps: Patterns, m: NameMatcher, s: string) {
    match m
    case Equal(v, _) => v == s
    case Contains(v, _) => HasSubstring(s, v)
    case Glob(g, _) => ps.glob(g, s)
    case Regex(r) => ps.regex(r, s)
  }

  datatype PackageInfo = PackageInfo(id: string, name: string)

  /** The graph: workspace packages, the names of their test binaries, and the
      dependency relation (`None` where the graph library reports an error). */
  datatype Graph = Graph(
    packages: seq<PackageInfo>,
    binaryNames: set<string>,
    binaryIds: set<string>,
    dependsOn: (string, string) -> Option<bool>)

  datatype KnownGroups = Known(customGroups: set<string>) | Unavailable

  const GLOBAL_TEST_GROUP := "@global"

  datatype FiltersetKind = TestFilter | TestArchive | OverrideFilter | DefaultFilter

  datatype Attribute = ByKind | ByBinary | ByBinaryId | ByTest | ByGroup

  datatype FiltersetLeaf =
    | Packages(ids: set<string>)
    | Named(attr: Attribute, matcher: NameMatcher, span: Span)
    | OnPlatform(platform: Platform, span: Span)
    | DefaultSet
    | AllTests
    | NoTests

  datatype CompiledExpr =
    | Not(expr: CompiledExpr)
    | Union(left: CompiledExpr, right: CompiledExpr)
    | Intersection(left: CompiledExpr, right: CompiledExpr)
    | Set(leaf: FiltersetLeaf)

  /** Everything compilation consults. */
  datatype Cx = Cx(ps: Patterns, graph: Graph, known: KnownGroups)

  // ----- package sets -----

  predicate DependsOn(g: Graph, a: string, b: string) {
    g.dependsOn(a, b) == Some(true)
  }

  function MatchingPackages(cx: Cx, m: NameMatcher): set<string> {
    set p | p in cx.graph.packages && IsMatch(cx.ps, m, p.name) :: p.id
  }

  /** Workspace packages that some matching package depends on. */
  function DependencySet(cx: Cx, m: NameMatcher): set<string> {
    set p | p in cx.graph.packages && (exists r <- MatchingPackages(cx, m) :: DependsOn(cx.graph, r, p.id)) :: p.id
  }

  /** Workspace packages that depend on some matching package. */
  function ReverseDependencySet(cx: Cx, m: NameMatcher): set<string> {
    set p | p in cx.graph.packages && (exists r <- MatchingPackages(cx, m) :: DependsOn(cx.graph, p.id, r)) :: p.id
  }

  /** The nested loops over matching packages and over all packages; `reverse` picks
      the direction of the dependency. */
  method RelatedPackages(cx: Cx, m: NameMatcher, reverse: bool) returns (ids: set<string>)
    ensures ids == if reverse then ReverseDependencySet(cx, m) else DependencySet(cx, m)
  {
    ids := {};
    var all := cx.graph.packages;
    for i := 0 to |all|
      invariant ids == RelatedUpTo(cx, m, reverse, i, 0)
    {
      if IsMatch(cx.ps, m, all[i].name) {
        for j := 0 to |all|
          invariant ids == RelatedUpTo(cx, m, reverse, i, j)
        {
          var related := if reverse then cx.graph.dependsOn(all[j].id, all[i].id)
                         else cx.graph.dependsOn(all[i].id, all[j].id);
          if related.Some? && related.value {
            ids := ids + {all[j].id};
          }
          RelatedStep(cx, m, reverse, i, j);
        }
      }
      RelatedRow(cx, m, reverse, i);
    }
    RelatedAll(cx, m, reverse);
  }

  predicate Related(cx: Cx, m: NameMatcher, reverse: bool, i: nat, j: nat)
    requires i < |cx.graph.packages| && j < |cx.graph.packages|
  {
    var all := cx.graph.packages;
    && IsMatch(cx.ps, m, all[i].name)
    && if reverse then DependsOn(cx.graph, all[j].id, all[i].id) else DependsOn(cx.graph, all[i].id, all[j].id)
  }

  /** The packages found in the first `i` rows and the first `j` places of row `i`. */
  ghost function RelatedUpTo(cx: Cx, m: NameMatcher, reverse: bool, i: nat, j: nat): set<string>
    requires i <= |cx.graph.packages| && j <= |cx.graph.packages|
    requires i == |cx.graph.packages| ==> j == 0
  {
    var n := |cx.graph.packages|;
    set a, b | 0 <= a < n && 0 <= b < n && (a < i || (a == i && b < j)) && Related(cx, m, reverse, a, b)
      :: cx.graph.packages[b].id
  }

  lemma RelatedStep(cx: Cx, m: NameMatcher, reverse: bool, i: nat, j: nat)
    requires i < |cx.graph.packages| && j < |cx.graph.packages|
    ensures RelatedUpTo(cx, m, reverse, i, j + 1)
            == RelatedUpTo(cx, m, reverse, i, j)
               + if Related(cx, m, reverse, i, j) then {cx.graph.packages[j].id} else {}
  {
  }

  lemma RelatedRow(cx: Cx, m: NameMatcher, reverse: bool, i: nat)
    requires i < |cx.graph.packages|
    ensures RelatedUpTo(cx, m, reverse, i, |cx.graph.packages|) == RelatedUpTo(cx, m, reverse, i + 1, 0)
    ensures !IsMatch(cx.ps, m, cx.graph.packages[i].name) ==>
              RelatedUpTo(cx, m, reverse, i, 0) == RelatedUpTo(cx, m, reverse, i + 1, 0)
  {
  }

  lemma RelatedAll(cx: Cx, m: NameMatcher, reverse: bool)
    ensures RelatedUpTo(cx, m, reverse, |cx.graph.packages|, 0)
            == if reverse then ReverseDependencySet(cx, m) else DependencySet(cx, m)
  {
    var all := cx.graph.packages;
    var found := RelatedUpTo(cx, m, reverse, |all|, 0);
    var want := if reverse then ReverseDependencySet(cx, m) else DependencySet(cx, m);
    forall id | id in want
      ensures id in found
    {
      var p, r :| p in all && p.id == id && r in MatchingPackages(cx, m)
                  && if reverse then DependsOn(cx.graph, p.id, r) else DependsOn(cx.graph, r, p.id);
      var q :| q in all && IsMatch(cx.ps, m, q.name) && q.id == r;
      var a :| 0 <= a < |all| && all[a] == q;
      var b :| 0 <= b < |all| && all[b] == p;
      assert Related(cx, m, reverse, a, b);
    }
    forall id | id in found
      ensures id in want
    {
      var a, b :| 0 <= a < |all| && 0 <= b < |all| && Related(cx, m, reverse, a, b) && all[b].id == id;
      assert all[a] in all && all[b] in all && all[a].id in MatchingPackages(cx, m);
    }
  }

  // ----- leaves -----

  /** Exact names are looked up; other matchers are tried on every name. */
  predicate AnyNameMatches(cx: Cx, m: NameMatcher, names: set<string>) {
    if m.Equal? then m.value in names else exists n <- names :: IsMatch(cx.ps, m, n)
  }

  /** The lookup is a shortcut: it finds a name exactly when some name matches. */
  lemma AnyNameMatchesExact(cx: Cx, m: NameMatcher, names: set<string>)
    ensures AnyNameMatches(cx, m, names) <==> exists n :: n in names && IsMatch(cx.ps, m, n)
  {
    if m.Equal? && m.value in names {
      assert IsMatch(cx.ps, m, m.value);
    }
  }

  /** Whether the matcher matches `@global` or a custom group; only asked when the
      group names are known. */
  predicate MatchesKnownGroup(cx: Cx, m: NameMatcher)
    requires cx.known.Known?
  {
    IsMatch(cx.ps, m, GLOBAL_TEST_GROUP) || AnyNameMatches(cx, m, cx.known.customGroups)
  }

  function PackageSet(cx: Cx, p: Predicate, m: NameMatcher): set<string>
    requires p == Package || p == Deps || p == Rdeps
  {
    match p
    case Package => MatchingPackages(cx, m)
    case Deps => DependencySet(cx, m)
    case Rdeps => ReverseDependencySet(cx, m)
  }

  function CompileLeaf(cx: Cx, l: ParsedLeaf): FiltersetLeaf {
    match l
    case Matching(p, m, span) =>
      (match p
       case Kind => Named(ByKind, m, span)
       case Binary => Named(ByBinary, m, span)
       case BinaryId => Named(ByBinaryId, m, span)
       case Test => Named(ByTest, m, span)
       case Group => Named(ByGroup, m, span)
       case _ => Packages(PackageSet(cx, p, m)))
    case PlatformIs(p, span) => OnPlatform(p, span)
    case Default(_) => DefaultSet
    case All => AllTests
    case Nothing => NoTests
  }

  /** The kind of error a leaf is reported for, if any: it selects nothing there is. */
  function LeafError(cx: Cx, l: ParsedLeaf): Option<ErrorKind> {
    if !l.Matching? then None
    else
      match l.pred
      case Kind => None
      case Test => None
      case Binary => if AnyNameMatches(cx, l.matcher, cx.graph.binaryNames) then None else Some(NoBinaryNameMatch)
      case BinaryId => if AnyNameMatches(cx, l.matcher, cx.graph.binaryIds) then None else Some(NoBinaryIdMatch)
      case Group => if cx.known.Unavailable? || MatchesKnownGroup(cx, l.matcher) then None else Some(NoGroupMatch)
      case _ => if PackageSet(cx, l.pred, l.matcher) == {} then Some(NoPackageMatch) else None
  }

  predicate IsGroup(l: ParsedLeaf) {
    l.Matching? && l.pred == Group
  }

  // ----- bans -----

  function Banned(kind: FiltersetKind, l: ParsedLeaf): Option<ErrorKind> {
    match kind
    case TestFilter => None
    case OverrideFilter => if IsGroup(l) then Some(BannedPredicate(GroupCircularDependency)) else None
    case TestArchive =>
      if l.Matching? && l.pred == Test then Some(BannedPredicate(TestNotAvailableInArchive))
      else if IsGroup(l) then Some(BannedPredicate(GroupNotAvailableInArchive))
      else None
    case DefaultFilter =>
      if l.Default? then Some(BannedPredicate(DefaultInfiniteRecursion))
      else if IsGroup(l) then Some(BannedPredicate(GroupNotAvailableInDefaultFilter))
      else None
  }

  /** One error per leaf that `f` complains about, in the order of the leaves. */
  function Complaints(leaves: seq<ParsedLeaf>, f: ParsedLeaf -> Option<ErrorKind>): seq<Diagnostic> {
    if leaves == [] then []
    else LeafComplaint(leaves[0], f) + Complaints(leaves[1..], f)
  }

  function LeafComplaint(l: ParsedLeaf, f: ParsedLeaf -> Option<ErrorKind>): seq<Diagnostic> {
    if f(l).Some? && !l.All? && !l.Nothing? then [Diagnostic(f(l).value, l.span)] else []
  }

  // ----- compiling -----

  function CompileExpr(cx: Cx, e: ParsedExpr): CompiledExpr {
    match e
    case Not(_, a) => CompiledExpr.Not(CompileExpr(cx, a))
    case Union(_, a, b) => CompiledExpr.Union(CompileExpr(cx, a), CompileExpr(cx, b))
    case Intersection(_, a, b) => CompiledExpr.Intersection(CompileExpr(cx, a), CompileExpr(cx, b))
    case Difference(_, a, b) => CompiledExpr.Intersection(CompileExpr(cx, a), CompiledExpr.Not(CompileExpr(cx, b)))
    case Parens(a) => CompileExpr(cx, a)
    case Set(l) => CompiledExpr.Set(CompileLeaf(cx, l))
  }

  /** Compiling either succeeds, reports errors, or panics in the group validation. */
  datatype Outcome = Compiled(expr: CompiledExpr) | Failed(errors: seq<Diagnostic>) | Panicked

  predicate AsksUnknownGroups(cx: Cx, e: ParsedExpr) {
    cx.known.Unavailable? && exists l <- Leaves(e) :: IsGroup(l)
  }

  function CompileSpec(cx: Cx, kind: FiltersetKind, e: ParsedExpr): Outcome {
    var bans := Complaints(Leaves(e), l => Banned(kind, l));
    var errors := Complaints(Leaves(e), l => LeafError(cx, l));
    if bans != [] then Failed(bans)
    else if AsksUnknownGroups(cx, e) then Panicked
    else if errors != [] then Failed(errors)
    else Compiled(CompileExpr(cx, e))
  }

  // ----- as the code runs it: collapsing frames with closures that push errors -----

  function TreeOf(e: ParsedExpr): C.Tree<ParsedLeaf> {
    match e
    case Not(_, a) => C.Node(C.Not(TreeOf(a)))
    case Union(_, a, b) => C.Node(C.Union(TreeOf(a), TreeOf(b)))
    case Intersection(_, a, b) => C.Node(C.Intersection(TreeOf(a), TreeOf(b)))
    case Difference(_, a, b) => C.Node(C.Difference(TreeOf(a), TreeOf(b)))
    case Parens(a) => C.Node(C.Parens(TreeOf(a)))
    case Set(l) => C.Node(C.Set(l))
  }

  lemma {:induction false} TreeOfLeaves(e: ParsedExpr)
    ensures C.TreeLeaves(TreeOf(e)) == Leaves(e)
  {
    match e
    case Not(_, a) => TreeOfLeaves(a);
    case Union(_, a, b) => TreeOfLeaves(a); TreeOfLeaves(b);
    case Intersection(_, a, b) => TreeOfLeaves(a); TreeOfLeaves(b);
    case Difference(_, a, b) => TreeOfLeaves(a); TreeOfLeaves(b);
    case Parens(a) => TreeOfLeaves(a);
    case Set(_) =>
  }

  function PushComplaint(f: ParsedLeaf -> Option<ErrorKind>): (seq<Diagnostic>, ParsedLeaf) -> seq<Diagnostic> {
    (errors: seq<Diagnostic>, l: ParsedLeaf) => errors + LeafComplaint(l, f)
  }

  lemma {:induction false} PushingComplaints(leaves: seq<ParsedLeaf>, f: ParsedLeaf -> Option<ErrorKind>,
                                             errors: seq<Diagnostic>)
    ensures C.FoldLeaves(leaves, PushComplaint(f), errors) == errors + Complaints(leaves, f)
  {
    if leaves == [] {
      assert errors + [] == errors;
    } else {
      PushingComplaints(leaves[1..], f, errors + LeafComplaint(leaves[0], f));
      ConcatAssociates(errors, LeafComplaint(leaves[0], f), Complaints(leaves[1..], f));
    }
  }

  lemma ConcatAssociates(a: seq<Diagnostic>, b: seq<Diagnostic>, c: seq<Diagnostic>)
    ensures (a + b) + c == a + (b + c)
  {
  }

  method CheckBannedPredicates(e: ParsedExpr, kind: FiltersetKind) returns (errors: seq<Diagnostic>)
    ensures errors == Complaints(Leaves(e), l => Banned(kind, l))
  {
    var ban := l => Banned(kind, l);
    var step := PushComplaint(ban);
    var nothing;
    errors, nothing := C.CollapseFrames(TreeOf(e), C.OnLeaves(step), []);
    C.LeavesLeftToRight(TreeOf(e), step, []);
    TreeOfLeaves(e);
    PushingComplaints(Leaves(e), ban, []);
    assert [] + Complaints(Leaves(e), ban) == Complaints(Leaves(e), ban);
  }

  /** The errors pushed so far, and whether the group validation has panicked. */
  datatype Progress = Progress(errors: seq<Diagnostic>, panicked: bool)

  function CompileAlgebra(cx: Cx): C.Algebra<ParsedLeaf, CompiledExpr, Progress> {
    (s: Progress, f: C.Frame<ParsedLeaf, CompiledExpr>) =>
      match f
      case Set(l) =>
        (Progress(s.errors + LeafComplaint(l, l => LeafError(cx, l)),
                  s.panicked || (cx.known.Unavailable? && IsGroup(l))),
         CompiledExpr.Set(CompileLeaf(cx, l)))
      case Not(a) => (s, CompiledExpr.Not(a))
      case Union(a, b) => (s, CompiledExpr.Union(a, b))
      case Intersection(a, b) => (s, CompiledExpr.Intersection(a, b))
      case Difference(a, b) => (s, CompiledExpr.Intersection(a, CompiledExpr.Not(b)))
      case Parens(a) => (s, a)
  }

  function Advanced(cx: Cx, s: Progress, leaves: seq<ParsedLeaf>): Progress {
    Progress(s.errors + Complaints(leaves, l => LeafError(cx, l)),
             s.panicked || (cx.known.Unavailable? && exists l <- leaves :: IsGroup(l)))
  }

  lemma {:induction false} ComplaintsConcat(a: seq<ParsedLeaf>, b: seq<ParsedLeaf>, f: ParsedLeaf -> Option<ErrorKind>)
    ensures Complaints(a + b, f) == Complaints(a, f) + Complaints(b, f)
  {
    if a == [] {
      assert a + b == b;
    } else {
      assert (a + b)[1..] == a[1..] + b;
      ComplaintsConcat(a[1..], b, f);
    }
  }

  lemma AdvancedConcat(cx: Cx, s: Progress, a: seq<ParsedLeaf>, b: seq<ParsedLeaf>)
    ensures Advanced(cx, Advanced(cx, s, a), b) == Advanced(cx, s, a + b)
  {
    var f := l => LeafError(cx, l);
    ComplaintsConcat(a, b, f);
    ConcatAssociates(s.errors, Complaints(a, f), Complaints(b, f));
  }

  lemma AdvancedOne(cx: Cx, s: Progress, l: ParsedLeaf)
    ensures Advanced(cx, s, [l]) ==
            Progress(s.errors + LeafComplaint(l, l => LeafError(cx, l)),
                     s.panicked || (cx.known.Unavailable? && IsGroup(l)))
  {
    var f := l => LeafError(cx, l);
    assert Complaints([l], f) == LeafComplaint(l, f) + [];
    assert l in [l];
  }

  lemma {:induction false} CompileFold(cx: Cx, e: ParsedExpr, s: Progress)
    ensures C.Fold(TreeOf(e), CompileAlgebra(cx), s) == (Advanced(cx, s, Leaves(e)), CompileExpr(cx, e))
    decreases TreeOf(e).Size()
  {
    match e
    case Set(l) => AdvancedOne(cx, s, l);
    case Not(_, a) => CompileFold(cx, a, s);
    case Parens(a) => CompileFold(cx, a, s);
    case Union(_, a, b) => CompileFoldTwo(cx, a, b, s);
    case Intersection(_, a, b) => CompileFoldTwo(cx, a, b, s);
    case Difference(_, a, b) => CompileFoldTwo(cx, a, b, s);
  }

  lemma {:induction false} CompileFoldTwo(cx: Cx, a: ParsedExpr, b: ParsedExpr, s: Progress)
    ensures var (s1, x) := C.Fold(TreeOf(a), CompileAlgebra(cx), s);
            var (s2, y) := C.Fold(TreeOf(b), CompileAlgebra(cx), s1);
            s2 == Advanced(cx, s, Leaves(a) + Leaves(b)) && x == CompileExpr(cx, a) && y == CompileExpr(cx, b)
    decreases TreeOf(a).Size() + TreeOf(b).Size()
  {
    CompileFold(cx, a, s);
    CompileFold(cx, b, Advanced(cx, s, Leaves(a)));
    AdvancedConcat(cx, s, Leaves(a), Leaves(b));
  }

  method Compile(cx: Cx, kind: FiltersetKind, e: ParsedExpr) returns (r: Outcome)
    ensures r == CompileSpec(cx, kind, e)
  {
    var bans := CheckBannedPredicates(e, kind);
    if bans != [] {
      return Failed(bans);
    }
    var progress, expr := C.CollapseFrames(TreeOf(e), CompileAlgebra(cx), Progress([], false));
    CompileFold(cx, e, Progress([], false));
    var errors := Complaints(Leaves(e), l => LeafError(cx, l));
    assert [] + errors == errors;
    if progress.panicked {
      return Panicked;
    }
    r := if progress.errors == [] then Compiled(expr) else Failed(progress.errors);
  }
}
