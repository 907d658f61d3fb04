/** The filterset language: abstract syntax, its printer, and the parenthesis normal form. */
module FiltersetSyntax {
  /** The part of the environment the parser asks about but does not define:
      which texts the regex and the glob library accept. */
  datatype Lib = Lib(validRegex: string -> bool, validGlob: string -> bool)

  datatype Span = Span(offset: nat, length: nat) {
    function End(): nat { offset + length }
  }

  datatype BanReason =
    | DefaultInfiniteRecursion
    | GroupCircularDependency
    | GroupNotAvailableInDefaultFilter
    | GroupNotAvailableInArchive
    | TestNotAvailableInArchive

  datatype ErrorKind =
    | InvalidRegex
    | InvalidGlob
    | ExpectedCloseRegex
    | InvalidOrOperator
    | InvalidAndOperator
    | UnexpectedArgument
    | UnexpectedComma
    | InvalidString
    | ExpectedOpenParenthesis
    | ExpectedCloseParenthesis
    | InvalidEscapeCharacter
    | ExpectedExpr
    | ExprFoundBinaryOp
    | ExprFoundUnaryOp
    | ExpectedEndOfExpression
    | InvalidPlatformArgument
    | NoPackageMatch
    | NoGroupMatch
    | NoBinaryIdMatch
    | NoBinaryNameMatch
    | BannedPredicate(reason: BanReason)
    | Unknown

  /** A reported error: what went wrong, and where. */
  datatype Diagnostic = Diagnostic(kind: ErrorKind, span: Span)

  datatype NameMatcher =
    | Equal(value: string, implicit: bool)
    | Contains(value: string, implicit: bool)
    | Glob(glob: string, implicit: bool)
    | Regex(regex: string)

  datatype Platform = Host | Target

  /** The predicates that take a name matcher. */
  datatype Predicate = Package | Deps | Rdeps | Kind | Binary | BinaryId | Test | Group

  datatype ParsedLeaf =
    | Matching(pred: Predicate, matcher: NameMatcher, span: Span)
    | PlatformIs(platform: Platform, span: Span)
    | Default(span: Span)
    | All
    | Nothing

  datatype NotOperator = LiteralNot | Exclamation
  datatype OrOperator = LiteralOr | Pipe | Plus
  datatype AndOperator = LiteralAnd | Ampersand
  datatype DifferenceOperator = Minus

  datatype ParsedExpr =
    | Not(notOp: NotOperator, expr: ParsedExpr)
    | Union(orOp: OrOperator, left: ParsedExpr, right: ParsedExpr)
    | Intersection(andOp: AndOperator, left: ParsedExpr, right: ParsedExpr)
    | Difference(diffOp: DifferenceOperator, left: ParsedExpr, right: ParsedExpr)
    | Parens(expr: ParsedExpr)
    | Set(leaf: ParsedLeaf)

  /** How a predicate reads an argument that carries no operator. */
  datatype DefaultMatcher = DefaultEqual | DefaultContains | DefaultGlob

  function DefaultFor(p: Predicate): DefaultMatcher {
    match p
    case Kind => DefaultEqual
    case Test => DefaultContains
    case _ => DefaultGlob
  }

  // ----- erasing source spans -----

  const NO_SPAN: Span := Span(0, 0)

  function StripLeaf(l: ParsedLeaf): ParsedLeaf {
    match l
    case Matching(p, m, _) => Matching(p, m, NO_SPAN)
    case PlatformIs(p, _) => PlatformIs(p, NO_SPAN)
    case Default(_) => Default(NO_SPAN)
    case All => All
    case Nothing => Nothing
  }

  function Strip(e: ParsedExpr): ParsedExpr {
    match e
    case Not(op, a) => Not(op, Strip(a))
    case Union(op, a, b) => Union(op, Strip(a), Strip(b))
    case Intersection(op, a, b) => Intersection(op, Strip(a), Strip(b))
    case Difference(op, a, b) => Difference(op, Strip(a), Strip(b))
    case Parens(a) => Parens(Strip(a))
    case Set(l) => Set(StripLeaf(l))
  }

  /** The leaves of an expression, left to right. */
  function Leaves(e: ParsedExpr): seq<ParsedLeaf> {
    match e
    case Not(_, a) => Leaves(a)
    case Union(_, a, b) => Leaves(a) + Leaves(b)
    case Intersection(_, a, b) => Leaves(a) + Leaves(b)
    case Difference(_, a, b) => Leaves(a) + Leaves(b)
    case Parens(a) => Leaves(a)
    case Set(l) => [l]
  }

  // ----- the parenthesis normal form -----

  /** Not a binary operation: what `not`, and the right of `and` and `-`, may hold. */
  predicate IsBasic(e: ParsedExpr) {
    e.Not? || e.Parens? || e.Set?
  }

  /** The trees whose printed form groups the way the tree does. */
  predicate NormalForm(e: ParsedExpr) {
    match e
    case Not(_, a) => IsBasic(a) && NormalForm(a)
    case Union(_, a, b) => !b.Union? && NormalForm(a) && NormalForm(b)
    case Intersection(_, a, b) => !a.Union? && IsBasic(b) && NormalForm(a) && NormalForm(b)
    case Difference(_, a, b) => !a.Union? && IsBasic(b) && NormalForm(a) && NormalForm(b)
    case Parens(a) => NormalForm(a)
    case Set(_) => true
  }

  function ParenthesizeNot(e: ParsedExpr): ParsedExpr {
    if IsBasic(e) then e else Parens(e)
  }

  function ParenthesizeOrLeft(e: ParsedExpr): ParsedExpr {
    e
  }

  function ParenthesizeOrRight(e: ParsedExpr): ParsedExpr {
    if e.Union? then Parens(e) else e
  }

  function ParenthesizeAndLeft(e: ParsedExpr): ParsedExpr {
    if e.Union? then Parens(e) else e
  }

  function ParenthesizeAndRight(e: ParsedExpr): ParsedExpr {
    if IsBasic(e) then e else Parens(e)
  }

  /** Builds `e` again bottom-up, the way the expression generator does. */
  function Normalize(e: ParsedExpr): ParsedExpr {
    match e
    case Not(op, a) => Not(op, ParenthesizeNot(Normalize(a)))
    case Union(op, a, b) => Union(op, ParenthesizeOrLeft(Normalize(a)), ParenthesizeOrRight(Normalize(b)))
    case Intersection(op, a, b) =>
      Intersection(op, ParenthesizeAndLeft(Normalize(a)), ParenthesizeAndRight(Normalize(b)))
    case Difference(op, a, b) =>
      Difference(op, ParenthesizeAndLeft(Normalize(a)), ParenthesizeAndRight(Normalize(b)))
    case Parens(a) => Parens(Normalize(a))
    case Set(l) => Set(l)
  }

  /** The generator reaches exactly the normal forms: its output is always one,
      and it leaves a tree alone just when the tree already is one. */
  lemma {:induction false} NormalizeExact(e: ParsedExpr)
    ensures NormalForm(Normalize(e))
    ensures Normalize(e) == e <==> NormalForm(e)
    ensures Leaves(Normalize(e)) == Leaves(e)
  {
    match e
    case Not(_, a) => NormalizeExact(a);
    case Union(_, a, b) => NormalizeExact(a); NormalizeExact(b);
    case Intersection(_, a, b) => NormalizeExact(a); NormalizeExact(b);
    case Difference(_, a, b) => NormalizeExact(a); NormalizeExact(b);
    case Parens(a) => NormalizeExact(a);
    case Set(_) =>
  }

  // ----- printing -----

  function Keyword(p: Predicate): string {
    match p
    case Package => "package"
    case Deps => "deps"
    case Rdeps => "rdeps"
    case Kind => "kind"
    case Binary => "binary"
    case BinaryId => "binary_id"
    case Test => "test"
    case Group => "group"
  }

  function PlatformText(p: Platform): string {
    if p == Host then "host" else "target"
  }

  function NotText(op: NotOperator): string {
    if op == LiteralNot then "not" else "!"
  }

  function OrText(op: OrOperator): string {
    match op
    case LiteralOr => "or"
    case Pipe => "|"
    case Plus => "+"
  }

  function AndText(op: AndOperator): string {
    if op == LiteralAnd then "and" else "&"
  }
}
