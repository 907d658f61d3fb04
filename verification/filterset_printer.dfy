/** Printing expressions, and which expressions can be read back. */
module FiltersetPrinter {
  import opened FiltersetSyntax
  import opened MatcherText

  function PrintMatcher(m: NameMatcher): string {
    match m
    case Equal(v, implicit) => (if implicit then "" else "=") + EscapeText(v)
    case Contains(v, implicit) => (if implicit then "" else "~") + EscapeText(v)
    case Glob(g, implicit) => (if implicit then "" else "#") + EscapeText(g)
    case Regex(r) => "/" + PrintRegex(r, false) + "/"
  }

  function PrintLeaf(l: ParsedLeaf): string {
    match l
    case Matching(p, m, _) => Keyword(p) + ("(" + (PrintMatcher(m) + ")"))
    case PlatformIs(p, _) => "platform" + ("(" + (PlatformText(p) + ")"))
    case Default(_) => "default" + "()"
    case All => "all" + "()"
    case Nothing => "none" + "()"
  }

  function Print(e: ParsedExpr): string {
    match e
    case Not(op, a) => NotText(op) + (" " + Print(a))
    case Union(op, a, b) => Print(a) + (" " + (OrText(op) + (" " + Print(b))))
    case Intersection(op, a, b) => Print(a) + (" " + (AndText(op) + (" " + Print(b))))
    case Difference(_, a, b) => Print(a) + (" " + ("-" + (" " + Print(b))))
    case Parens(a) => "(" + (Print(a) + ")")
    case Set(l) => PrintLeaf(l)
  }

  // ----- what a printed matcher reads back as -----

  function ArgumentText(m: NameMatcher): string {
    match m
    case Equal(v, _) => v
    case Contains(v, _) => v
    case Glob(g, _) => g
    case Regex(r) => r
  }

  predicate IsImplicit(m: NameMatcher) {
    !m.Regex? && m.implicit
  }

  /** The matcher a predicate makes of an argument without an operator. */
  function ImplicitMatcher(d: DefaultMatcher, v: string): NameMatcher {
    match d
    case DefaultEqual => Equal(v, true)
    case DefaultContains => Contains(v, true)
    case DefaultGlob => Glob(v, true)
  }

  /** The first character would be read as blank or as a matcher operator. */
  predicate StartsOperator(v: string) {
    v != "" && (v[0] == ' ' || v[0] == '=' || v[0] == '~' || v[0] == '#')
  }

  /** Exactly the matchers whose printed form, as an argument of a predicate with
      default `d`, reads back as the same matcher. */
  predicate Printable(lib: Lib, d: DefaultMatcher, m: NameMatcher) {
    match m
    case Regex(r) => lib.validRegex(r) && !HasEscapedSlash(r, false) && !EndsInBackslash(r)
    case _ =>
      && !HasQuote(ArgumentText(m))
      && (m.Glob? ==> lib.validGlob(m.glob))
      && (m.implicit ==> m == ImplicitMatcher(d, ArgumentText(m)) && !StartsOperator(ArgumentText(m)))
  }

  predicate LeafPrintable(lib: Lib, l: ParsedLeaf) {
    l.Matching? ==> Printable(lib, DefaultFor(l.pred), l.matcher)
  }

  predicate AllPrintable(lib: Lib, e: ParsedExpr) {
    forall l <- Leaves(e) :: LeafPrintable(lib, l)
  }

  /** A leaf with an empty string argument: it reads back, but with an error. */
  predicate EmptyText(l: ParsedLeaf) {
    l.Matching? && !l.matcher.Regex? && ArgumentText(l.matcher) == ""
  }
}
