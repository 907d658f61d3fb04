/** The grammar of filtersets as a reference, written without the parser: what there is to
    write, how it is spelled, and which tree it stands for. */
module FiltersetGrammar {
  import opened CharClasses
  import opened FiltersetSyntax

  // ----- words and blanks -----

  /** Spaces and line ends, LF or CRLF. */
  predicate IsBlanks(s: string) {
    || s == ""
    || ((s[0] == ' ' || s[0] == '\n') && IsBlanks(s[1..]))
    || (|s| >= 2 && s[0] == '\r' && s[1] == '\n' && IsBlanks(s[2..]))
  }

  predicate StartsBlank(s: string) {
    s != "" && (s[0] == ' ' || s[0] == '\n' || (|s| >= 2 && s[0] == '\r' && s[1] == '\n'))
  }

  /** A word that stands before `s` ends there. */
  predicate WordEnds(s: string) {
    s == "" || !('a' <= s[0] <= 'z' || 'A' <= s[0] <= 'Z' || '0' <= s[0] <= '9' || s[0] == '_')
  }

  /** Some blank characters, of any kind, then the word, then some more. */
  predicate Padded(s: string, word: string) {
    exists i :: 0 <= i <= |s| && PadsAt(s, word, i)
  }

  predicate PadsAt(s: string, word: string, i: int) {
    && 0 <= i <= i + |word| <= |s| && s[i..i + |word|] == word
    && AllWhitespace(s[..i]) && AllWhitespace(s[i + |word|..])
  }

  predicate AllWhitespace(s: string) {
    forall c <- s :: IsWhitespace(c)
  }

  // ----- strings and regexes -----

  const LOWER_DIGITS := "0123456789abcdef"
  const UPPER_DIGITS := "0123456789ABCDEF"

  /** Hexadecimal digits, in lower or upper case, leading zeros allowed. */
  predicate Denotes(digits: string, n: nat) {
    if digits == "" then n == 0
    else
      && digits[|digits| - 1] in [LOWER_DIGITS[n % 16], UPPER_DIGITS[n % 16]]
      && Denotes(digits[..|digits| - 1], n / 16)
  }

  /** How a character is written in a string: as it is, after a backslash, or by its number. */
  predicate Writes(piece: string, c: char) {
    || (piece == [c] && c != '\\' && c != ')' && c != ',')
    || (piece == "\\n" && c == '\n')
    || (piece == "\\r" && c == '\r')
    || (piece == "\\t" && c == '\t')
    || (piece == "\\b" && c == '\U{8}')
    || (piece == "\\f" && c == '\U{c}')
    || (piece == "\\\\" && c == '\\')
    || (piece == "\\/" && c == '/')
    || (piece == "\\)" && c == ')')
    || (piece == "\\," && c == ',')
    || WritesNumber(piece, c)
  }

  predicate WritesNumber(piece: string, c: char) {
    && 5 <= |piece| <= 10 && piece[..3] == "\\u{" && piece[|piece| - 1] == '}'
    && Denotes(piece[3..|piece| - 1], c as nat)
  }

  predicate WritesText(raw: string, v: string) {
    if v == "" then raw == ""
    else exists n :: 0 < n <= |raw| && Writes(raw[..n], v[0]) && WritesText(raw[n..], v[1..])
  }

  /** A regex stands between slashes: those in it have a backslash, and there is no other
      slash, nor a backslash at the end. */
  predicate WritesRegex(raw: string, r: string) {
    if raw == "" then r == ""
    else
      && r != "" && raw[0] != '/' && raw != "\\"
      && if |raw| >= 2 && raw[0] == '\\' && raw[1] == '/' then r[0] == '/' && WritesRegex(raw[2..], r[1..])
         else r[0] == raw[0] && WritesRegex(raw[1..], r[1..])
  }

  // ----- sets -----

  function Name(l: ParsedLeaf): string {
    match l
    case Matching(Package, _, _) => "package"
    case Matching(Deps, _, _) => "deps"
    case Matching(Rdeps, _, _) => "rdeps"
    case Matching(Kind, _, _) => "kind"
    case Matching(Binary, _, _) => "binary"
    case Matching(BinaryId, _, _) => "binary_id"
    case Matching(Test, _, _) => "test"
    case Matching(Group, _, _) => "group"
    case PlatformIs(_, _) => "platform"
    case Default(_) => "default"
    case All => "all"
    case Nothing => "none"
  }

  /** What an argument without an operator stands for. */
  predicate Implied(p: Predicate, m: NameMatcher) {
    if p.Kind? then m.Equal? else if p.Test? then m.Contains? else m.Glob?
  }

  function Value(m: NameMatcher): string {
    match m
    case Equal(v, _) => v
    case Contains(v, _) => v
    case Glob(g, _) => g
    case Regex(r) => r
  }

  function Argument(l: ParsedLeaf, raw: string): string {
    if !l.Matching? then raw
    else if l.matcher.Regex? then "/" + (raw + "/")
    else if l.matcher.implicit then raw
    else [if l.matcher.Equal? then '=' else if l.matcher.Contains? then '~' else '#'] + raw
  }

  predicate MatcherFits(lib: Lib, p: Predicate, m: NameMatcher, raw: string, tail: string) {
    if m.Regex? then WritesRegex(raw, m.regex) && lib.validRegex(m.regex)
    else
      && tail == "" && Value(m) != "" && WritesText(raw, Value(m))
      && (m.Glob? ==> lib.validGlob(m.glob))
      && (m.implicit ==>
            && Implied(p, m)
            && raw != "" && !StartsBlank(raw) && raw[0] != '/' && raw[0] != '#' && raw[0] != '=' && raw[0] != '~')
  }

  /** The argument is one for the leaf: after the blanks `lead`, and before those of `tail`. */
  ghost predicate LeafFits(lib: Lib, l: ParsedLeaf, lead: string, raw: string, tail: string) {
    && IsBlanks(lead) && IsBlanks(tail)
    && match l
       case Matching(p, m, _) => MatcherFits(lib, p, m, raw, tail)
       case PlatformIs(p, _) =>
         tail == "" && !StartsBlank(raw)
         && exists v :: WritesText(raw, v) && Padded(v, if p.Host? then "host" else "target")
       case _ => lead == "" && tail == "" && AllWhitespace(raw)
  }

  /** Where a leaf says it stands: from its parenthesis to the end of its argument, or all of
      it if it takes none. */
  function Placed(l: ParsedLeaf, off: nat, gap: string, lead: string, raw: string): ParsedLeaf {
    var open := off + |Name(l)| + |gap| + 1;
    match l
    case Matching(p, m, _) => Matching(p, m, Span(open, |lead| + |Argument(l, raw)|))
    case PlatformIs(p, _) => PlatformIs(p, Span(open, |lead| + |raw|))
    case Default(_) => Default(Span(off, |Name(l)| + |gap| + |raw| + 2))
    case _ => l
  }

  // ----- expressions -----

  datatype BinaryOp = Or(or: OrOperator) | And(and: AndOperator) | Minus

  function OpText(op: BinaryOp): string {
    match op
    case Or(LiteralOr) => "or"
    case Or(Pipe) => "|"
    case Or(Plus) => "+"
    case And(LiteralAnd) => "and"
    case And(Ampersand) => "&"
    case Minus => "-"
  }

  predicate IsWord(op: BinaryOp) {
    op == Or(LiteralOr) || op == And(LiteralAnd)
  }

  function NotSign(op: NotOperator): string {
    if op == LiteralNot then "not" else "!"
  }

  /** An expression as it is written, with its blanks. */
  datatype Script =
    | Leaf(before: string, leaf: ParsedLeaf, gap: string, lead: string, raw: string, tail: string)
    | Negated(before: string, not: NotOperator, inner: Script)
    | Enclosed(before: string, inner: Script, after: string)
    | Joined(left: Script, before: string, op: BinaryOp, right: Script)

  function LeafText(l: ParsedLeaf, gap: string, lead: string, raw: string, tail: string): string {
    Name(l) + (gap + ("(" + (lead + (Argument(l, raw) + (tail + ")")))))
  }

  function Text(s: Script): string {
    match s
    case Leaf(before, l, gap, lead, raw, tail) => before + LeafText(l, gap, lead, raw, tail)
    case Negated(before, op, a) => before + (NotSign(op) + Text(a))
    case Enclosed(before, a, after) => before + ("(" + (Text(a) + (after + ")")))
    case Joined(a, before, op, b) => Text(a) + (before + (OpText(op) + Text(b)))
  }

  predicate IsOr(s: Script) {
    s.Joined? && s.op.Or?
  }

  /** Operators group to the left, `or` after `and` and `-`, and words are kept apart from
      the words that follow. */
  ghost predicate Correct(lib: Lib, s: Script) {
    match s
    case Leaf(before, l, gap, lead, raw, tail) =>
      IsBlanks(before) && IsBlanks(gap) && LeafFits(lib, l, lead, raw, tail)
    case Negated(before, op, a) =>
      IsBlanks(before) && !a.Joined? && Correct(lib, a) && (op == LiteralNot ==> WordEnds(Text(a)))
    case Enclosed(before, a, after) => IsBlanks(before) && Correct(lib, a) && IsBlanks(after)
    case Joined(a, before, op, b) =>
      && Correct(lib, a) && IsBlanks(before) && Correct(lib, b)
      && (if op.Or? then !IsOr(b) else !IsOr(a) && !b.Joined?)
      && (IsWord(op) ==> WordEnds(Text(b)))
  }

  /** The tree a script stands for if it starts at offset `off`. */
  function Tree(s: Script, off: nat): ParsedExpr {
    match s
    case Leaf(before, l, gap, lead, raw, _) => Set(Placed(l, off + |before|, gap, lead, raw))
    case Negated(before, op, a) => Not(op, Tree(a, off + |before| + |NotSign(op)|))
    case Enclosed(before, a, _) => Parens(Tree(a, off + |before| + 1))
    case Joined(a, before, op, b) =>
      Node(op, Tree(a, off), Tree(b, off + |Text(a)| + |before| + |OpText(op)|))
  }

  function Node(op: BinaryOp, a: ParsedExpr, b: ParsedExpr): ParsedExpr {
    match op
    case Or(o) => Union(o, a, b)
    case And(o) => Intersection(o, a, b)
    case Minus => Difference(DifferenceOperator.Minus, a, b)
  }
}
