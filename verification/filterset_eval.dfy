/** Evaluating compiled expressions: per test, and per binary in three-valued logic. */
module FiltersetEval {
  import opened Wrappers
  import opened FiltersetSyntax
  import opened FiltersetCompile
  import C = Collapse

  datatype BinaryQuery = BinaryQuery(packageId: string, binaryId: string, binaryName: string, kind: string,
                                     platform: Platform)

  datatype TestQuery = TestQuery(binary: BinaryQuery, testName: string)

  /** How `group()` is resolved: not at all, or by a membership lookup. */
  datatype Groups = NoGroups | WithGroups(isMember: (TestQuery, NameMatcher) -> bool)

  /** The pattern libraries and the default filter. */
  datatype Env = Env(ps: Patterns, defaultFilter: CompiledExpr)

  /** Evaluation gives a value, panics, or is still inside more nested `default()`
      filters than it was allowed to enter. */
  datatype Verdict<+V> = Value(v: V) | Panic | Unfinished

  // ----- per test -----

  function Negated(a: Verdict<bool>): Verdict<bool> {
    if a.Value? then Value(!a.v) else a
  }

  /** Both operands are evaluated, the left one first; there is no short circuit. */
  function Both(a: Verdict<bool>, b: Verdict<bool>): Verdict<bool> {
    if !a.Value? then a else if !b.Value? then b else Value(a.v && b.v)
  }

  function Either(a: Verdict<bool>, b: Verdict<bool>): Verdict<bool> {
    if !a.Value? then a else if !b.Value? then b else Value(a.v || b.v)
  }

  function AttributeText(attr: Attribute, q: TestQuery): string
    requires attr != ByGroup
  {
    match attr
    case ByKind => q.binary.kind
    case ByBinary => q.binary.binaryName
    case ByBinaryId => q.binary.binaryId
    case ByTest => q.testName
  }

  function LeafMatchesTest(env: Env, depth: nat, l: FiltersetLeaf, q: TestQuery, groups: Groups): Verdict<bool>
    decreases depth, 0
  {
    match l
    case AllTests => Value(true)
    case NoTests => Value(false)
    case DefaultSet => if depth == 0 then Unfinished else MatchesTest(env, depth - 1, env.defaultFilter, q, NoGroups)
    case Packages(ids) => Value(q.binary.packageId in ids)
    case OnPlatform(p, _) => Value(q.binary.platform == p)
    case Named(ByGroup, m, _) => if groups.NoGroups? then Panic else Value(groups.isMember(q, m))
    case Named(attr, m, _) => Value(IsMatch(env.ps, m, AttributeText(attr, q)))
  }

  /** Whether the test is accepted, entering at most `depth` nested default filters. */
  function MatchesTest(env: Env, depth: nat, e: CompiledExpr, q: TestQuery, groups: Groups): Verdict<bool>
    decreases depth, 1, e
  {
    match e
    case Set(l) => LeafMatchesTest(env, depth, l, q, groups)
    case Not(a) => Negated(MatchesTest(env, depth, a, q, groups))
    case Union(a, b) => Either(MatchesTest(env, depth, a, q, groups), MatchesTest(env, depth, b, q, groups))
    case Intersection(a, b) => Both(MatchesTest(env, depth, a, q, groups), MatchesTest(env, depth, b, q, groups))
  }

  // ----- per binary, in Kleene logic -----

  function LogicNot(a: Option<bool>): Option<bool> {
    if a.Some? then Some(!a.value) else None
  }

  function LogicAnd(a: Option<bool>, b: Option<bool>): Option<bool> {
    if a == Some(false) || b == Some(false) then Some(false)
    else if a == Some(true) && b == Some(true) then Some(true)
    else None
  }

  function LogicOr(a: Option<bool>, b: Option<bool>): Option<bool> {
    if a == Some(true) || b == Some(true) then Some(true)
    else if a == Some(false) && b == Some(false) then Some(false)
    else None
  }

  function Lift2(f: (Option<bool>, Option<bool>) -> Option<bool>,
                 a: Verdict<Option<bool>>, b: Verdict<Option<bool>>): Verdict<Option<bool>> {
    if !a.Value? then a else if !b.Value? then b else Value(f(a.v, b.v))
  }

  function LeafMatchesBinary(env: Env, depth: nat, l: FiltersetLeaf, q: BinaryQuery): Verdict<Option<bool>>
    decreases depth, 0
  {
    match l
    case AllTests => Value(Some(true))
    case NoTests => Value(Some(false))
    case DefaultSet => if depth == 0 then Unfinished else MatchesBinary(env, depth - 1, env.defaultFilter, q)
    case Packages(ids) => Value(Some(q.packageId in ids))
    case OnPlatform(p, _) => Value(Some(q.platform == p))
    case Named(ByTest, _, _) => Value(None)
    case Named(ByGroup, _, _) => Value(None)
    case Named(attr, m, _) => Value(Some(IsMatch(env.ps, m, AttributeText(attr, TestQuery(q, "")))))
  }

  /** Whether the binary is accepted: certainly, certainly not, or unknown. */
  function MatchesBinary(env: Env, depth: nat, e: CompiledExpr, q: BinaryQuery): Verdict<Option<bool>>
    decreases depth, 1, e
  {
    match e
    case Set(l) => LeafMatchesBinary(env, depth, l, q)
    case Not(a) =>
      var v := MatchesBinary(env, depth, a, q);
      if v.Value? then Value(LogicNot(v.v)) else v
    case Union(a, b) => Lift2(LogicOr, MatchesBinary(env, depth, a, q), MatchesBinary(env, depth, b, q))
    case Intersection(a, b) => Lift2(LogicAnd, MatchesBinary(env, depth, a, q), MatchesBinary(env, depth, b, q))
  }

  // ----- leaves of compiled expressions -----

  predicate HasLeaf(e: CompiledExpr, p: FiltersetLeaf -> bool) {
    match e
    case Set(l) => p(l)
    case Not(a) => HasLeaf(a, p)
    case Union(a, b) => HasLeaf(a, p) || HasLeaf(b, p)
    case Intersection(a, b) => HasLeaf(a, p) || HasLeaf(b, p)
  }

  predicate IsGroupLeaf(l: FiltersetLeaf) {
    l.Named? && l.attr == ByGroup
  }

  predicate HasGroup(e: CompiledExpr) {
    HasLeaf(e, IsGroupLeaf)
  }

  predicate HasDefault(e: CompiledExpr) {
    HasLeaf(e, (l: FiltersetLeaf) => l.DefaultSet?)
  }

  predicate IsRuntimeOnly(l: FiltersetLeaf) {
    l.DefaultSet? || (l.Named? && (l.attr == ByTest || l.attr == ByGroup))
  }

  // ----- termination and panics -----

  /** Evaluation can panic only at a `group()` without a lookup: in the expression
      itself, or in the default filter, which is always evaluated without one. */
  predicate MayPanic(env: Env, e: CompiledExpr, groups: Groups) {
    (groups.NoGroups? && HasGroup(e)) || (HasDefault(e) && HasGroup(env.defaultFilter))
  }

  /** Wherever evaluation ends it panics exactly there: no operand saves another one. */
  lemma {:induction false} PanicsExactly(env: Env, depth: nat, e: CompiledExpr, q: TestQuery, groups: Groups)
    requires !HasDefault(e) || (depth > 0 && !HasDefault(env.defaultFilter))
    ensures MatchesTest(env, depth, e, q, groups).Panic? <==> MayPanic(env, e, groups)
    ensures !MatchesTest(env, depth, e, q, groups).Unfinished?
    decreases depth, e
  {
    match e
    case Set(l) =>
      if l.DefaultSet? {
        PanicsExactly(env, depth - 1, env.defaultFilter, q, NoGroups);
      }
    case Not(a) => PanicsExactly(env, depth, a, q, groups);
    case Union(a, b) => PanicsExactly(env, depth, a, q, groups); PanicsExactly(env, depth, b, q, groups);
    case Intersection(a, b) => PanicsExactly(env, depth, a, q, groups); PanicsExactly(env, depth, b, q, groups);
  }

  /** One level into the default filter is enough, unless the filter refers to itself. */
  lemma OneLevelIsEnough(env: Env, depth: nat, e: CompiledExpr, q: TestQuery, groups: Groups)
    requires !HasDefault(e) || (depth > 0 && !HasDefault(env.defaultFilter))
    requires !MayPanic(env, e, groups)
    ensures MatchesTest(env, depth, e, q, groups).Value?
  {
    PanicsExactly(env, depth, e, q, groups);
  }

  lemma {:induction false} NeverFinishes(env: Env, depth: nat, e: CompiledExpr, q: TestQuery, groups: Groups)
    requires HasDefault(e) && HasDefault(env.defaultFilter) && !MayPanic(env, e, groups)
    ensures MatchesTest(env, depth, e, q, groups).Unfinished?
    decreases depth, e
  {
    match e
    case Set(l) =>
      if depth > 0 {
        NeverFinishes(env, depth - 1, env.defaultFilter, q, NoGroups);
      }
    case Not(a) => NeverFinishes(env, depth, a, q, groups);
    case Union(a, b) => NeverFinishesTwo(env, depth, e, a, b, q, groups);
    case Intersection(a, b) => NeverFinishesTwo(env, depth, e, a, b, q, groups);
  }

  lemma {:induction false} NeverFinishesTwo(env: Env, depth: nat, e: CompiledExpr, a: CompiledExpr, b: CompiledExpr,
                                           q: TestQuery, groups: Groups)
    requires e == CompiledExpr.Union(a, b) || e == CompiledExpr.Intersection(a, b)
    requires HasDefault(a) || HasDefault(b)
    requires HasDefault(env.defaultFilter) && !HasGroup(env.defaultFilter) && !MayPanic(env, a, groups)
             && !MayPanic(env, b, groups)
    ensures var x, y := MatchesTest(env, depth, a, q, groups), MatchesTest(env, depth, b, q, groups);
            x.Unfinished? || (x.Value? && y.Unfinished?)
    decreases depth, e, 0
  {
    if HasDefault(a) {
      NeverFinishes(env, depth, a, q, groups);
    } else {
      OneLevelIsEnough(env, depth, a, q, groups);
      NeverFinishes(env, depth, b, q, groups);
    }
  }

  /** Where no panic is possible, evaluation ends exactly when the expression or the
      default filter has no `default()`; that is what the ban on `default()` buys. */
  lemma EvaluationEnds(env: Env, e: CompiledExpr, q: TestQuery, groups: Groups)
    requires !MayPanic(env, e, groups)
    ensures (exists depth :: !MatchesTest(env, depth, e, q, groups).Unfinished?)
            <==> !HasDefault(e) || !HasDefault(env.defaultFilter)
    ensures !HasDefault(e) || !HasDefault(env.defaultFilter) ==>
              forall depth: nat ::
                depth > 0 ==> MatchesTest(env, depth, e, q, groups) == MatchesTest(env, 1, e, q, groups)
  {
    if HasDefault(e) && HasDefault(env.defaultFilter) {
      forall depth: nat
        ensures MatchesTest(env, depth, e, q, groups).Unfinished?
      {
        NeverFinishes(env, depth, e, q, groups);
      }
    } else {
      OneLevelIsEnough(env, 1, e, q, groups);
      forall depth: nat | depth > 0
        ensures MatchesTest(env, depth, e, q, groups) == MatchesTest(env, 1, e, q, groups)
      {
        SameAtEveryDepth(env, depth, e, q, groups);
      }
    }
  }

  lemma {:induction false} SameAtEveryDepth(env: Env, depth: nat, e: CompiledExpr, q: TestQuery, groups: Groups)
    requires depth > 0 || !HasDefault(e)
    requires !HasDefault(e) || !HasDefault(env.defaultFilter)
    ensures MatchesTest(env, depth, e, q, groups) == MatchesTest(env, 1, e, q, groups)
    decreases HasDefault(e), e
  {
    match e
    case Set(l) =>
      if l.DefaultSet? {
        NoDefaultAnyDepth(env, depth - 1, env.defaultFilter, q, NoGroups);
      }
    case Not(a) => SameAtEveryDepth(env, depth, a, q, groups);
    case Union(a, b) => SameAtEveryDepth(env, depth, a, q, groups); SameAtEveryDepth(env, depth, b, q, groups);
    case Intersection(a, b) => SameAtEveryDepth(env, depth, a, q, groups); SameAtEveryDepth(env, depth, b, q, groups);
  }

  lemma {:induction false} NoDefaultAnyDepth(env: Env, depth: nat, e: CompiledExpr, q: TestQuery, groups: Groups)
    requires !HasDefault(e)
    ensures MatchesTest(env, depth, e, q, groups) == MatchesTest(env, 0, e, q, groups)
  {
    match e
    case Set(_) =>
    case Not(a) => NoDefaultAnyDepth(env, depth, a, q, groups);
    case Union(a, b) => NoDefaultAnyDepth(env, depth, a, q, groups); NoDefaultAnyDepth(env, depth, b, q, groups);
    case Intersection(a, b) => NoDefaultAnyDepth(env, depth, a, q, groups); NoDefaultAnyDepth(env, depth, b, q, groups);
  }

  // ----- the binary answer and the test answers -----

  /** A certain answer for a binary is the answer for each of its tests, whatever the
      test is called and whatever groups it is in, also through `default()`. */
  lemma {:induction false} BinaryAnswerSound(env: Env, depth: nat, e: CompiledExpr, q: TestQuery, groups: Groups)
    requires !MayPanic(env, e, groups)
    ensures var v := MatchesBinary(env, depth, e, q.binary);
            var t := MatchesTest(env, depth, e, q, groups);
            && (v.Unfinished? <==> t.Unfinished?) && !v.Panic?
            && (v.Value? && v.v.Some? ==> t == Value(v.v.value))
            && (v.Value? ==> t.Value?)
    decreases depth, e
  {
    match e
    case Set(l) =>
      if l.DefaultSet? && depth > 0 {
        BinaryAnswerSound(env, depth - 1, env.defaultFilter, q, NoGroups);
      }
    case Not(a) => BinaryAnswerSound(env, depth, a, q, groups);
    case Union(a, b) => BinaryAnswerSound(env, depth, a, q, groups); BinaryAnswerSound(env, depth, b, q, groups);
    case Intersection(a, b) => BinaryAnswerSound(env, depth, a, q, groups); BinaryAnswerSound(env, depth, b, q, groups);
  }

  /** The outcomes there could be if each `test()` and `group()` leaf were an unknown
      of its own. */
  function Possible(env: Env, depth: nat, e: CompiledExpr, q: BinaryQuery): set<bool>
    decreases depth, e
  {
    match e
    case Set(l) =>
      if l.DefaultSet? then if depth == 0 then {} else Possible(env, depth - 1, env.defaultFilter, q)
      else if IsRuntimeOnly(l) then {true, false}
      else
        var v := LeafMatchesBinary(env, depth, l, q);
        if v.Value? && v.v.Some? then {v.v.value} else {}
    case Not(a) => set x | x in Possible(env, depth, a, q) :: !x
    case Union(a, b) => set x, y | x in Possible(env, depth, a, q) && y in Possible(env, depth, b, q) :: x || y
    case Intersection(a, b) => set x, y | x in Possible(env, depth, a, q) && y in Possible(env, depth, b, q) :: x && y
  }

  /** What a three-valued answer says about the outcomes. */
  predicate Answers(v: Option<bool>, outcomes: set<bool>) {
    (true in outcomes <==> v != Some(false)) && (false in outcomes <==> v != Some(true))
  }

  lemma AnswersNot(a: Option<bool>, x: set<bool>)
    requires Answers(a, x)
    ensures Answers(LogicNot(a), set p | p in x :: !p)
  {
    var r := set p | p in x :: !p;
    assert forall b :: b in r <==> !b in x;
  }

  lemma AnswersOr(a: Option<bool>, b: Option<bool>, x: set<bool>, y: set<bool>)
    requires Answers(a, x) && Answers(b, y)
    ensures Answers(LogicOr(a, b), set p, q | p in x && q in y :: p || q)
  {
    var r := set p, q | p in x && q in y :: p || q;
    assert true in r <==> true in x || true in y by {
      if true in x { assert true || (true in y) in r; }
      if true in y { assert (true in x) || true in r; }
    }
    assert false in r <==> false in x && false in y;
  }

  lemma AnswersAnd(a: Option<bool>, b: Option<bool>, x: set<bool>, y: set<bool>)
    requires Answers(a, x) && Answers(b, y)
    ensures Answers(LogicAnd(a, b), set p, q | p in x && q in y :: p && q)
  {
    var r := set p, q | p in x && q in y :: p && q;
    assert true in r <==> true in x && true in y;
    assert false in r <==> false in x || false in y;
  }

  /** Kleene logic loses nothing but the link between equal leaves: the answer is
      certain exactly when all outcomes agree, and unknown exactly when both occur. */
  lemma {:induction false} BinaryAnswerExact(env: Env, depth: nat, e: CompiledExpr, q: BinaryQuery)
    requires MatchesBinary(env, depth, e, q).Value?
    ensures Answers(MatchesBinary(env, depth, e, q).v, Possible(env, depth, e, q))
    decreases depth, e
  {
    match e
    case Set(l) =>
      if l.DefaultSet? {
        BinaryAnswerExact(env, depth - 1, env.defaultFilter, q);
      }
    case Not(a) =>
      BinaryAnswerExact(env, depth, a, q);
      AnswersNot(MatchesBinary(env, depth, a, q).v, Possible(env, depth, a, q));
    case Union(a, b) =>
      BinaryAnswerExact(env, depth, a, q);
      BinaryAnswerExact(env, depth, b, q);
      AnswersOr(MatchesBinary(env, depth, a, q).v, MatchesBinary(env, depth, b, q).v,
                Possible(env, depth, a, q), Possible(env, depth, b, q));
    case Intersection(a, b) =>
      BinaryAnswerExact(env, depth, a, q);
      BinaryAnswerExact(env, depth, b, q);
      AnswersAnd(MatchesBinary(env, depth, a, q).v, MatchesBinary(env, depth, b, q).v,
                 Possible(env, depth, a, q), Possible(env, depth, b, q));
  }

  // ----- evaluation as the code runs it -----

  function TreeOfCompiled(e: CompiledExpr): C.Tree<FiltersetLeaf> {
    match e
    case Not(a) => C.Node(C.Not(TreeOfCompiled(a)))
    case Union(a, b) => C.Node(C.Union(TreeOfCompiled(a), TreeOfCompiled(b)))
    case Intersection(a, b) => C.Node(C.Intersection(TreeOfCompiled(a), TreeOfCompiled(b)))
    case Set(l) => C.Node(C.Set(l))
  }

  /** The closure given to the driver: leaves by `LeafMatchesTest`, operators by tables. */
  function TestAlgebra(env: Env, depth: nat, q: TestQuery,
                       groups: Groups): C.Algebra<FiltersetLeaf, Verdict<bool>, ()> {
    (s: (), f: C.Frame<FiltersetLeaf, Verdict<bool>>) =>
      (s,
       match f
       case Set(l) => LeafMatchesTest(env, depth, l, q, groups)
       case Not(a) => Negated(a)
       case Union(a, b) => Either(a, b)
       case Intersection(a, b) => Both(a, b)
       case Difference(a, b) => Both(a, Negated(b))
       case Parens(a) => a)
  }

  lemma {:induction false} TestFold(env: Env, depth: nat, e: CompiledExpr, q: TestQuery, groups: Groups)
    ensures C.Fold(TreeOfCompiled(e), TestAlgebra(env, depth, q, groups), ())
            == ((), MatchesTest(env, depth, e, q, groups))
  {
    match e
    case Set(_) =>
    case Not(a) => TestFold(env, depth, a, q, groups);
    case Union(a, b) => TestFold(env, depth, a, q, groups); TestFold(env, depth, b, q, groups);
    case Intersection(a, b) => TestFold(env, depth, a, q, groups); TestFold(env, depth, b, q, groups);
  }

  method EvaluateTest(env: Env, depth: nat, e: CompiledExpr, q: TestQuery, groups: Groups) returns (v: Verdict<bool>)
    ensures v == MatchesTest(env, depth, e, q, groups)
  {
    var nothing;
    nothing, v := C.CollapseFrames(TreeOfCompiled(e), TestAlgebra(env, depth, q, groups), ());
    TestFold(env, depth, e, q, groups);
  }

  function BinaryAlgebra(env: Env, depth: nat, q: BinaryQuery): C.Algebra<FiltersetLeaf, Verdict<Option<bool>>, ()> {
    (s: (), f: C.Frame<FiltersetLeaf, Verdict<Option<bool>>>) =>
      (s,
       match f
       case Set(l) => LeafMatchesBinary(env, depth, l, q)
       case Not(a) => if a.Value? then Value(LogicNot(a.v)) else a
       case Union(a, b) => Lift2(LogicOr, a, b)
       case Intersection(a, b) => Lift2(LogicAnd, a, b)
       case Difference(a, b) => Lift2((x, y) => LogicAnd(x, LogicNot(y)), a, b)
       case Parens(a) => a)
  }

  lemma {:induction false} BinaryFold(env: Env, depth: nat, e: CompiledExpr, q: BinaryQuery)
    ensures C.Fold(TreeOfCompiled(e), BinaryAlgebra(env, depth, q), ()) == ((), MatchesBinary(env, depth, e, q))
  {
    match e
    case Set(_) =>
    case Not(a) => BinaryFold(env, depth, a, q);
    case Union(a, b) => BinaryFold(env, depth, a, q); BinaryFold(env, depth, b, q);
    case Intersection(a, b) => BinaryFold(env, depth, a, q); BinaryFold(env, depth, b, q);
  }

  method EvaluateBinary(env: Env, depth: nat, e: CompiledExpr, q: BinaryQuery) returns (v: Verdict<Option<bool>>)
    ensures v == MatchesBinary(env, depth, e, q)
  {
    var nothing;
    nothing, v := C.CollapseFrames(TreeOfCompiled(e), BinaryAlgebra(env, depth, q), ());
    BinaryFold(env, depth, e, q);
  }

  /** The flag that `has_group_matchers` sets while it collapses. */
  method FindGroupMatchers(e: CompiledExpr) returns (found: bool)
    ensures found == HasGroup(e)
  {
    var nothing;
    var step := (found: bool, l: FiltersetLeaf) => found || IsGroupLeaf(l);
    found, nothing := C.CollapseFrames(TreeOfCompiled(e), C.OnLeaves(step), false);
    FlagFold(e, false, step);
  }

  lemma {:induction false} FlagFold(e: CompiledExpr, found: bool, step: (bool, FiltersetLeaf) -> bool)
    requires forall f, l :: step(f, l) == (f || IsGroupLeaf(l))
    ensures C.Fold(TreeOfCompiled(e), C.OnLeaves(step), found).0 == (found || HasGroup(e))
  {
    match e
    case Set(_) =>
    case Not(a) => FlagFold(a, found, step);
    case Union(a, b) => FlagFold(a, found, step); FlagFold(b, found || HasGroup(a), step);
    case Intersection(a, b) => FlagFold(a, found, step); FlagFold(b, found || HasGroup(a), step);
  }
}
