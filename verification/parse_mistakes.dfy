/** What is said about an input that the grammar does not allow. */
module ParseMistakes {
  import opened Wrappers
  import opened FiltersetSyntax
  import opened ParserState
  import opened FiltersetPrinter
  import opened G = FiltersetGrammar
  import opened GrammarReads
  import GrammarWritten
  import P = FiltersetParser
  import RT = ExpressionRoundTrip
  import MR = MatcherRoundTrip

  // ----- operators of other languages -----

  /** A token that is mistaken for `or`, or for `and`, in front of `y`. */
  predicate OrMistake(tok: string, y: string) {
    tok == "||" || (tok == "OR" && WordEnds(y))
  }

  predicate AndMistake(tok: string, y: string) {
    tok == "&&" || (tok == "AND" && WordEnds(y))
  }

  lemma OrMistakeNext(tok: string, y: string)
    requires OrMistake(tok, y)
    ensures var s := tok + y;
            && !StartsBlank(s) && s[2..] == y && |tok| == 2
            && P.NextOr(s) == Some((P.Token<OrOperator>.Mistake, 2)) && P.NextAnd(s) == None
  {
    var s := tok + y;
    assert s[0] == tok[0] && s[1] == tok[1];
    if tok == "OR" {
      assert P.WordNext("OR", s);
    }
  }

  lemma AndMistakeNext(tok: string, y: string)
    requires AndMistake(tok, y)
    ensures var s := tok + y;
            && !StartsBlank(s) && s[|tok|..] == y
            && P.NextAnd(s) == Some((P.Token<P.AndOrDifference>.Mistake, |tok|))
  {
    var s := tok + y;
    assert s[0] == tok[0] && s[1] == tok[1];
    if tok == "AND" {
      assert P.WordNext("AND", s);
    }
  }

  /** The stream behind the token, with the mistake reported where it stands. */
  lemma OrMistakeTaken(st: St, w: string, tok: string, y: string) returns (st1: St)
    requires IsBlanks(w) && OrMistake(tok, y) && st.rest == w + (tok + y)
    ensures P.ParseOr(st) == Ok(st1, P.Token<OrOperator>.Mistake) && RT.NoAnd(st.rest)
    ensures st1.off == st.off + |w| + 2 && st1.rest == y
    ensures st1.errs == st.errs + [Diagnostic(InvalidOrOperator, Span(st.off + |w|, 2))]
  {
    hide IsBlanks, StartsBlank, SkipBlanks, MR.DropBlanks, OrMistake, P.NextOr, P.NextAnd, Follows;
    OrMistakeNext(tok, y);
    BlanksSkip(st, w, tok + y);
    BlanksDrop(w, tok + y);
    st1 := SkipBlanks(st).Advance(2).Report(InvalidOrOperator, Span(st.off + |w|, 2));
  }

  lemma AndMistakeTaken(st: St, w: string, tok: string, y: string) returns (st1: St)
    requires IsBlanks(w) && AndMistake(tok, y) && st.rest == w + (tok + y)
    ensures P.ParseAnd(st) == Ok(st1, P.Token<P.AndOrDifference>.Mistake)
    ensures st1.off == st.off + |w| + |tok| && st1.rest == y
    ensures st1.errs == st.errs + [Diagnostic(InvalidAndOperator, Span(st.off + |w|, |tok|))]
  {
    hide IsBlanks, StartsBlank, SkipBlanks, AndMistake, P.NextAnd, Follows;
    AndMistakeNext(tok, y);
    BlanksSkip(st, w, tok + y);
    st1 := SkipBlanks(st).Advance(|tok|).Report(InvalidAndOperator, Span(st.off + |w|, |tok|));
  }

  // ----- the rest of the chain -----

  /** Whatever was wrong before, the rest of an `or` chain is read on, silently. */
  lemma {:induction false} OrTail(lib: Lib, b: Script, st: St, t: string) returns (st1: St)
    requires Correct(lib, b) && st.rest == Text(b) + t && RT.NoAnd(t)
    ensures P.OrLoop(lib, P.ParseAnds(lib, st).0, P.ExprResult.Error) == P.OrLoop(lib, st1, P.ExprResult.Error)
    ensures st1.off == st.off + |Text(b)| && st1.rest == t && st1.errs == st.errs
    decreases b
  {
    if IsOr(b) {
      st1 := OrTailStep(lib, b, st, t);
    } else {
      st1 := AndsReads(lib, b, st, t);
      RT.LoopsStop(lib, st1, P.Valid(Tree(b, st.off)));
      hide P.ParseAnds, P.AndLoop, P.OrLoop, Correct, Text, Tree, RT.NoAnd;
    }
  }

  lemma {:induction false} OrTailStep(lib: Lib, b: Script, st: St, t: string) returns (st1: St)
    requires Correct(lib, b) && IsOr(b) && st.rest == Text(b) + t && RT.NoAnd(t)
    ensures P.OrLoop(lib, P.ParseAnds(lib, st).0, P.ExprResult.Error) == P.OrLoop(lib, st1, P.ExprResult.Error)
    ensures st1.off == st.off + |Text(b)| && st1.rest == t && st1.errs == st.errs
    decreases b, 0
  {
    hide P.ParseAnds, P.ParseOr, P.OrLoop, P.AndLoop, Text, Tree, IsBlanks, WordEnds, IsWord, OpText, RT.NoAnd, Follows;
    var here, st3 := LinkTaken(lib, b, st, t);
    var st2 := OrTail(lib, b.left, st, here.rest);
    st1 := AndsReads(lib, b.right, st3, t);
    RT.LoopsStop(lib, st1, P.Valid(Tree(b.right, st3.off)));
    OrErrorTurn(lib, b.op, here, st3, st1, Tree(b.right, st3.off));
  }

  lemma OrErrorTurn(lib: Lib, op: BinaryOp, st: St, st1: St, st2: St, b: ParsedExpr)
    requires op.Or? && P.ParseOr(st) == Ok(st1, P.Operator(op.or))
    requires P.ParseAnds(lib, st1) == (st2, P.Valid(b))
    ensures P.OrLoop(lib, st, P.ExprResult.Error) == P.OrLoop(lib, st2, P.ExprResult.Error)
  {
    hide P.ParseOr, P.ParseAnds;
  }

  /** And so is the rest of a chain in which an `and` was wrong. */
  lemma {:induction false} AndTail(lib: Lib, b: Script, st: St, t: string) returns (st1: St)
    requires Correct(lib, b) && !IsOr(b) && st.rest == Text(b) + t
    ensures P.ParseBasic(lib, st).Ok?
    ensures P.AndLoop(lib, P.ParseBasic(lib, st).st, P.ExprResult.Error) == P.AndLoop(lib, st1, P.ExprResult.Error)
    ensures st1.off == st.off + |Text(b)| && st1.rest == t && st1.errs == st.errs
    decreases b
  {
    if b.Joined? {
      st1 := AndTailStep(lib, b, st, t);
    } else {
      st1 := BasicReads(lib, b, st, t);
      hide P.ParseBasic, P.AndLoop, Correct, Text, Tree;
    }
  }

  lemma {:induction false} AndTailStep(lib: Lib, b: Script, st: St, t: string) returns (st1: St)
    requires Correct(lib, b) && b.Joined? && !b.op.Or? && st.rest == Text(b) + t
    ensures P.ParseBasic(lib, st).Ok?
    ensures P.AndLoop(lib, P.ParseBasic(lib, st).st, P.ExprResult.Error) == P.AndLoop(lib, st1, P.ExprResult.Error)
    ensures st1.off == st.off + |Text(b)| && st1.rest == t && st1.errs == st.errs
    decreases b, 0
  {
    hide P.ParseAnd, P.ParseBasic, P.AndLoop, IsBlanks, WordEnds, IsWord, OpText, Linked, Follows;
    var y := Text(b.right) + t;
    TextAnd(b, t);
    TextStarts(lib, b.right);
    FirstStays(Text(b.right), t);
    var st2 := AndTail(lib, b.left, st, b.before + (OpText(b.op) + y));
    var st3 := AndTaken(b.op, st2, b.before, y);
    st1 := BasicReads(lib, b.right, st3, t);
    AndErrorTurn(lib, b.op, st2, st3, st1, Tree(b.right, st3.off));
  }

  lemma AndErrorTurn(lib: Lib, op: BinaryOp, st: St, st1: St, st2: St, b: ParsedExpr)
    requires !op.Or? && P.ParseAnd(st) == Ok(st1, P.Operator(Linked(op)))
    requires P.ParseBasic(lib, st1) == Ok(st2, P.Valid(b))
    ensures P.AndLoop(lib, st, P.ExprResult.Error) == P.AndLoop(lib, st2, P.ExprResult.Error)
  {
    hide P.ParseAnd, P.ParseBasic;
  }

  /** Both, from the operand right behind the mistake to the end of the expression. */
  lemma {:induction false} Tail(lib: Lib, b: Script, st: St, t: string) returns (st1: St)
    requires Correct(lib, b) && st.rest == Text(b) + t && RT.NoAnd(t)
    ensures P.ParseBasic(lib, st).Ok?
    ensures var st2 := P.AndLoop(lib, P.ParseBasic(lib, st).st, P.ExprResult.Error);
            st2.1 == P.ExprResult.Error
            && P.OrLoop(lib, st2.0, P.ExprResult.Error) == P.OrLoop(lib, st1, P.ExprResult.Error)
    ensures st1.off == st.off + |Text(b)| && st1.rest == t && st1.errs == st.errs
    decreases b
  {
    if IsOr(b) {
      st1 := TailStep(lib, b, st, t);
    } else {
      st1 := AndTail(lib, b, st, t);
      RT.LoopsStop(lib, st1, P.ExprResult.Error);
      hide P.ParseBasic, P.AndLoop, P.OrLoop, Correct, Text, RT.NoAnd;
    }
  }

  lemma {:induction false} TailStep(lib: Lib, b: Script, st: St, t: string) returns (st1: St)
    requires Correct(lib, b) && IsOr(b) && st.rest == Text(b) + t && RT.NoAnd(t)
    ensures P.ParseBasic(lib, st).Ok?
    ensures var st2 := P.AndLoop(lib, P.ParseBasic(lib, st).st, P.ExprResult.Error);
            st2.1 == P.ExprResult.Error
            && P.OrLoop(lib, st2.0, P.ExprResult.Error) == P.OrLoop(lib, st1, P.ExprResult.Error)
    ensures st1.off == st.off + |Text(b)| && st1.rest == t && st1.errs == st.errs
    decreases b, 0
  {
    hide P.ParseAnds, P.ParseOr, P.ParseBasic, P.OrLoop, P.AndLoop, Text, Tree, IsBlanks, WordEnds, IsWord, OpText,
         RT.NoAnd, Follows;
    var here, st3 := LinkTaken(lib, b, st, t);
    var st2 := Tail(lib, b.left, st, here.rest);
    st1 := AndsReads(lib, b.right, st3, t);
    RT.LoopsStop(lib, st1, P.Valid(Tree(b.right, st3.off)));
    OrErrorTurn(lib, b.op, here, st3, st1, Tree(b.right, st3.off));
  }

  // ----- the whole input -----

  /** Only blanks are left: the input has been read to its end. */
  lemma ReadToEnd(lib: Lib, input: string, st: St, r: P.ExprResult, end: string)
    requires P.ParseOrs(lib, St(0, input, [])) == (st, r) && st.rest == end && IsBlanks(end)
    requires st.off + |end| == |input|
    ensures P.Parse(lib, input) == (St(|input|, "", st.errs), r)
  {
    hide P.ParseOrs, IsBlanks, SkipBlanks, Follows;
    assert end + "" == end;
    BlanksSkip(st, end, "");
  }

  lemma OrMistakeTurn(lib: Lib, st: St, st1: St, acc: P.ExprResult)
    requires P.ParseOr(st) == Ok(st1, P.Token<OrOperator>.Mistake)
    ensures P.OrLoop(lib, st, acc) == P.OrLoop(lib, P.ParseAnds(lib, st1).0, P.ExprResult.Error)
  {
    hide P.ParseOr, P.ParseAnds;
  }

  /** `||` or `OR` between two expressions, however long, is reported where it stands, as
      the only error, and costs the result. */
  lemma OrMistaken(lib: Lib, a: Script, w: string, tok: string, b: Script, end: string)
    requires Correct(lib, a) && IsBlanks(w) && OrMistake(tok, Text(b) + end) && Correct(lib, b) && IsBlanks(end)
    ensures var input := Text(a) + (w + (tok + (Text(b) + end)));
            P.Parse(lib, input)
            == (St(|input|, "", [Diagnostic(InvalidOrOperator, Span(|Text(a)| + |w|, 2))]), P.ExprResult.Error)
  {
    hide P.ParseOrs, P.ParseAnds, P.ParseOr, P.OrLoop, Correct, Text, Tree, IsBlanks, OrMistake, RT.NoAnd, RT.NoOr,
         Follows, P.Parse;
    var y := Text(b) + end;
    var x := w + (tok + y);
    EndIsNoOperator(end);
    var here := St(|Text(a)|, x, []);
    var st2 := OrMistakeTaken(here, w, tok, y);
    var st1 := OrsReads(lib, a, St(0, Text(a) + x, []), x);
    OrMistakeTurn(lib, st1, st2, P.Valid(Tree(a, 0)));
    var st3 := OrTail(lib, b, st2, end);
    RT.LoopsStop(lib, st3, P.ExprResult.Error);
    OrMistakeLength(tok, y);
    assert st3.errs == [Diagnostic(InvalidOrOperator, Span(|Text(a)| + |w|, 2))];
    ReadToEnd(lib, Text(a) + x, st3, P.ExprResult.Error, end);
  }

  lemma OrMistakeLength(tok: string, y: string)
    requires OrMistake(tok, y)
    ensures |tok| == 2
  {
  }

  lemma AndMistakeTurn(lib: Lib, st: St, st1: St, acc: P.ExprResult)
    requires P.ParseAnd(st) == Ok(st1, P.Token<P.AndOrDifference>.Mistake) && P.ParseBasic(lib, st1).Ok?
    ensures P.AndLoop(lib, st, acc) == P.AndLoop(lib, P.ParseBasic(lib, st1).st, P.ExprResult.Error)
  {
    hide P.ParseAnd, P.ParseBasic;
  }

  /** The chain in which an `and` was wrong, and all that follows it. */
  lemma AndMistakeReads(lib: Lib, a: Script, w: string, tok: string, b: Script, st: St, t: string) returns (st1: St)
    requires Correct(lib, a) && !IsOr(a) && IsBlanks(w) && AndMistake(tok, Text(b) + t) && Correct(lib, b)
    requires RT.NoAnd(t) && st.rest == Text(a) + (w + (tok + (Text(b) + t)))
    ensures P.ParseAnds(lib, st).1 == P.ExprResult.Error
    ensures P.OrLoop(lib, P.ParseAnds(lib, st).0, P.ExprResult.Error) == P.OrLoop(lib, st1, P.ExprResult.Error)
    ensures st1.off == st.off + |Text(a)| + |w| + |tok| + |Text(b)| && st1.rest == t
    ensures st1.errs == st.errs + [Diagnostic(InvalidAndOperator, Span(st.off + |Text(a)| + |w|, |tok|))]
  {
    hide P.ParseAnds, P.ParseAnd, P.ParseBasic, P.AndLoop, P.OrLoop, Correct, Text, Tree, IsBlanks, AndMistake,
         RT.NoAnd,
         IsOr, Follows;
    var y := Text(b) + t;
    var st2 := AndsReads(lib, a, st, w + (tok + y));
    var st3 := AndMistakeTaken(st2, w, tok, y);
    st1 := Tail(lib, b, st3, t);
    AndMistakeTurn(lib, st2, st3, P.Valid(Tree(a, st.off)));
  }

  lemma OrParts(lib: Lib, a: Script)
    requires Correct(lib, a) && IsOr(a)
    ensures a.Joined? && a.op.Or? && Correct(lib, a.right) && !IsOr(a.right)
  {
  }

  /** An `or` chain, up to its last link. */
  lemma LastLink(lib: Lib, a: Script, st: St, x: string) returns (st1: St, st2: St)
    requires Correct(lib, a) && IsOr(a) && st.rest == Text(a) + x
    ensures P.ParseOrs(lib, st) == P.OrLoop(lib, st1, P.Valid(Tree(a.left, st.off)))
    ensures P.ParseOr(st1) == Ok(st2, P.Operator(a.op.or))
    ensures st2.off + |Text(a.right)| == st.off + |Text(a)| && st2.rest == Text(a.right) + x && st2.errs == st.errs
  {
    hide P.ParseOrs, P.ParseOr, P.OrLoop, Text, Tree, IsBlanks, WordEnds, IsWord, OpText, RT.NoAnd, Follows;
    st1, st2 := LinkTaken(lib, a, st, x);
    var st1' := OrsReads(lib, a.left, st, st1.rest);
  }

  /** In the last link of an `or` chain. */
  lemma AndMistakeInOr(lib: Lib, a: Script, w: string, tok: string, b: Script, st: St, t: string) returns (st1: St)
    requires Correct(lib, a) && IsOr(a) && IsBlanks(w) && AndMistake(tok, Text(b) + t) && Correct(lib, b)
    requires RT.NoAnd(t) && st.rest == Text(a) + (w + (tok + (Text(b) + t)))
    ensures P.ParseOrs(lib, st) == P.OrLoop(lib, st1, P.ExprResult.Error)
    ensures st1.off == st.off + |Text(a)| + |w| + |tok| + |Text(b)| && st1.rest == t
    ensures st1.errs == st.errs + [Diagnostic(InvalidAndOperator, Span(st.off + |Text(a)| + |w|, |tok|))]
  {
    hide *;
    OrParts(lib, a);
    var st2, st3 := LastLink(lib, a, st, w + (tok + (Text(b) + t)));
    st1 := AndMistakeReads(lib, a.right, w, tok, b, st3, t);
    OrErrorJoins(lib, a.op, st2, st3, Tree(a.left, st.off));
  }

  /** The same for `&&` and `AND`, wherever in a chain they stand. */
  lemma AndMistaken(lib: Lib, a: Script, w: string, tok: string, b: Script, end: string)
    requires Correct(lib, a) && IsBlanks(w) && AndMistake(tok, Text(b) + end) && Correct(lib, b) && IsBlanks(end)
    ensures var input := Text(a) + (w + (tok + (Text(b) + end)));
            P.Parse(lib, input)
            == (St(|input|, "", [Diagnostic(InvalidAndOperator, Span(|Text(a)| + |w|, |tok|))]), P.ExprResult.Error)
  {
    hide P.ParseOrs, P.ParseAnds, P.OrLoop, IsBlanks, AndMistake, RT.NoAnd, RT.NoOr, Follows, P.Parse, Correct, Text,
         IsOr;
    var input := Text(a) + (w + (tok + (Text(b) + end)));
    EndIsNoOperator(end);
    var st1;
    if IsOr(a) {
      st1 := AndMistakeInOr(lib, a, w, tok, b, St(0, input, []), end);
    } else {
      st1 := AndMistakeReads(lib, a, w, tok, b, St(0, input, []), end);
      FirstErrs(lib, St(0, input, []));
    }
    RT.LoopsStop(lib, st1, P.ExprResult.Error);
    assert st1.errs == [Diagnostic(InvalidAndOperator, Span(|Text(a)| + |w|, |tok|))];
    ReadToEnd(lib, input, st1, P.ExprResult.Error, end);
  }

  lemma OrErrorJoins(lib: Lib, op: BinaryOp, st: St, st1: St, a: ParsedExpr)
    requires op.Or? && P.ParseOr(st) == Ok(st1, P.Operator(op.or))
    requires P.ParseAnds(lib, st1).1 == P.ExprResult.Error
    ensures P.OrLoop(lib, st, P.Valid(a)) == P.OrLoop(lib, P.ParseAnds(lib, st1).0, P.ExprResult.Error)
  {
    hide P.ParseOr, P.ParseAnds;
  }

  lemma FirstErrs(lib: Lib, st: St)
    requires P.ParseAnds(lib, st).1 == P.ExprResult.Error
    ensures P.ParseOrs(lib, st) == P.OrLoop(lib, P.ParseAnds(lib, st).0, P.ExprResult.Error)
  {
    hide P.ParseAnds, P.OrLoop;
  }

  // ----- printed expressions -----

  /** The script with one more space in front. */
  function Spaced(s: Script): Script {
    match s
    case Leaf(before, l, gap, lead, raw, tail) => Leaf(" " + before, l, gap, lead, raw, tail)
    case Negated(before, op, a) => Negated(" " + before, op, a)
    case Enclosed(before, a, after) => Enclosed(" " + before, a, after)
    case Joined(a, before, op, b) => Joined(Spaced(a), before, op, b)
  }

  lemma {:induction false} SpacedText(lib: Lib, s: Script)
    requires Correct(lib, s)
    ensures Text(Spaced(s)) == " " + Text(s) && Correct(lib, Spaced(s))
    ensures IsOr(Spaced(s)) == IsOr(s) && Spaced(s).Joined? == s.Joined?
  {
    match s
    case Joined(a, before, op, b) =>
      SpacedText(lib, a);
      Regroup(" ", Text(a), "", "", before + (OpText(op) + Text(b)));
    case Leaf(before, l, gap, lead, raw, tail) =>
      SpaceInFront(before);
      Regroup(" ", before, "", "", LeafText(l, gap, lead, raw, tail));
      hide LeafFits, LeafText, IsBlanks;
    case Negated(before, op, a) =>
      SpaceInFront(before);
      Regroup(" ", before, "", "", NotSign(op) + Text(a));
    case Enclosed(before, a, after) =>
      SpaceInFront(before);
      Regroup(" ", before, "", "", "(" + (Text(a) + (after + ")")));
  }

  lemma SpaceInFront(before: string)
    requires IsBlanks(before)
    ensures IsBlanks(" " + before)
  {
    assert (" " + before)[1..] == before;
  }

  lemma {:induction false} PrintEnds(e: ParsedExpr)
    ensures Print(e) != "" && Print(e)[|Print(e)| - 1] == ')'
  {
    match e
    case Not(_, a) => PrintEnds(a);
    case Union(_, _, b) => PrintEnds(b);
    case Intersection(_, _, b) => PrintEnds(b);
    case Difference(_, _, b) => PrintEnds(b);
    case Parens(_) =>
    case Set(l) => LeafEnds(l);
  }

  lemma LeafEnds(l: ParsedLeaf)
    ensures PrintLeaf(l) != "" && PrintLeaf(l)[|PrintLeaf(l)| - 1] == ')'
  {
    hide PrintMatcher;
  }

  lemma {:induction false} BlanksEnd(s: string)
    requires IsBlanks(s) && s != ""
    ensures s[|s| - 1] != ')'
  {
    if s[0] == '\r' {
      if |s| > 2 {
        BlanksEnd(s[2..]);
      }
    } else if |s| > 1 {
      BlanksEnd(s[1..]);
    }
  }

  lemma LastOf(x: string, y: string, z: string)
    requires x == y + z && z != ""
    ensures x != "" && x[|x| - 1] == z[|z| - 1]
  {
  }

  /** What is printed for a tree is a script for it. */
  lemma PrintedScript(lib: Lib, e: ParsedExpr) returns (s: Script)
    requires NormalForm(e) && AllPrintable(lib, e) && RT.NoEmptyText(e)
    ensures Correct(lib, s) && Text(s) == Print(e) && Strip(Tree(s, 0)) == Strip(e)
  {
    hide P.Parse, Print, Text, Tree, Correct, IsBlanks, Strip;
    RT.PrintParse(lib, e);
    var end;
    s, end := GrammarWritten.GrammarWritten(lib, Print(e));
    PrintEnds(e);
    if end != "" {
      BlanksEnd(end);
      LastOf(Print(e), Text(s), end);
      assert false;
    }
    assert Text(s) + "" == Text(s);
  }

  lemma PrintedShape(a: string, tok: string, b: string)
    ensures a + (" " + (tok + ((" " + b) + ""))) == a + (" " + (tok + (" " + b)))
    ensures IsBlanks(" ") && IsBlanks("") && WordEnds((" " + b) + "")
  {
    assert (" " + b) + "" == " " + b;
    assert " "[1..] == "";
  }

  /** `||` or `OR` between any two printed expressions: the only error, right where it is. */
  lemma PrintedOrMistake(lib: Lib, a: ParsedExpr, b: ParsedExpr, tok: string)
    requires NormalForm(a) && AllPrintable(lib, a) && RT.NoEmptyText(a)
    requires NormalForm(b) && AllPrintable(lib, b) && RT.NoEmptyText(b)
    requires tok == "||" || tok == "OR"
    ensures var input := Print(a) + (" " + (tok + (" " + Print(b))));
            P.Parse(lib, input)
            == (St(|input|, "", [Diagnostic(InvalidOrOperator, Span(|Print(a)| + 1, 2))]), P.ExprResult.Error)
  {
    hide P.Parse, Print, NormalForm, AllPrintable, RT.NoEmptyText, Text, Tree, Correct, IsBlanks, WordEnds, Spaced,
         Strip;
    var s := PrintedScript(lib, a);
    var s' := PrintedScript(lib, b);
    SpacedText(lib, s');
    PrintedShape(Print(a), tok, Print(b));
    OrMistaken(lib, s, " ", tok, Spaced(s'), "");
  }

  /** And `&&` or `AND`. */
  lemma PrintedAndMistake(lib: Lib, a: ParsedExpr, b: ParsedExpr, tok: string)
    requires NormalForm(a) && AllPrintable(lib, a) && RT.NoEmptyText(a)
    requires NormalForm(b) && AllPrintable(lib, b) && RT.NoEmptyText(b)
    requires tok == "&&" || tok == "AND"
    ensures var input := Print(a) + (" " + (tok + (" " + Print(b))));
            P.Parse(lib, input)
            == (St(|input|, "", [Diagnostic(InvalidAndOperator, Span(|Print(a)| + 1, |tok|))]), P.ExprResult.Error)
  {
    hide P.Parse, Print, NormalForm, AllPrintable, RT.NoEmptyText, Text, Tree, Correct, IsBlanks, WordEnds, Spaced,
         Strip;
    var s := PrintedScript(lib, a);
    var s' := PrintedScript(lib, b);
    SpacedText(lib, s');
    PrintedShape(Print(a), tok, Print(b));
    AndMistaken(lib, s, " ", tok, Spaced(s'), "");
  }

  // ----- operators where an expression should start -----

  lemma {:induction false} ErrorStays(lib: Lib, st: St)
    ensures P.AndLoop(lib, st, P.ExprResult.Error).1 == P.ExprResult.Error
    decreases |st.rest|
  {
    hide P.ParseBasic, P.ParseAnd;
    match P.ParseAnd(st)
    case Backtrack =>
    case Ok(st1, op) => ErrorStays(lib, P.ExpectExpr(st1, P.ParseBasic(lib, st1)).0);
  }

  lemma {:induction false} ErrorStaysOr(lib: Lib, st: St)
    ensures P.OrLoop(lib, st, P.ExprResult.Error).1 == P.ExprResult.Error
    decreases |st.rest|
  {
    hide P.ParseAnds, P.ParseOr;
    match P.ParseOr(st)
    case Backtrack =>
    case Ok(st1, op) => ErrorStaysOr(lib, P.ParseAnds(lib, st1).0);
  }

  /** What is found where an expression should start. */
  predicate Misplaced(tok: string, y: string) {
    || tok == "&&" || tok == "||"
    || ((tok == "and" || tok == "or" || tok == "AND" || tok == "OR" || tok == "NOT") && WordEnds(y))
  }

  lemma MisplacedNext(tok: string, y: string)
    requires Misplaced(tok, y)
    ensures var s := tok + y;
            && !StartsBlank(s) && |tok| <= |s| && P.FirstName(s, P.SET_NAMES) == None && P.NextNot(s) == None
            && !("(" <= s)
            && P.NextMisplaced(s) == Some((if tok == "NOT" then ExprFoundUnaryOp else ExprFoundBinaryOp, |tok|))
  {
    var s := tok + y;
    assert s[0] == tok[0] && s[1] == tok[1];
    NoNameStarts(s);
    if tok != "&&" && tok != "||" {
      assert P.WordNext(tok, s) by {
        assert tok <= s;
      }
    }
  }

  lemma NoNameStarts(s: string)
    requires |s| >= 2 && !('a' <= s[0] <= 'z' && s[0] != 'a' && s[0] != 'o') && (s[0] == 'a' ==> s[1] == 'n')
    ensures P.FirstName(s, P.SET_NAMES) == None
  {
    hide P.SetKeyword;
    forall i | 0 <= i < |P.SET_NAMES|
      ensures !(P.SetKeyword(P.SET_NAMES[i]) <= s)
    {
      KeywordStarts(P.SET_NAMES[i]);
    }
    RT.FirstNameNone(s, P.SET_NAMES);
  }

  lemma KeywordStarts(n: P.SetName)
    ensures var k := P.SetKeyword(n); |k| >= 3 && 'a' <= k[0] <= 'z' && k[0] != 'o' && (k[0] == 'a' ==> k[1] != 'n')
  {
  }

  /** It is the first thing reported, and costs the result; the other errors follow it. */
  lemma MisplacedReported(lib: Lib, w: string, tok: string, y: string)
    requires IsBlanks(w) && Misplaced(tok, y)
    ensures var (st, r) := P.Parse(lib, w + (tok + y));
            && r == P.ExprResult.Error
            && [Diagnostic(if tok == "NOT" then ExprFoundUnaryOp else ExprFoundBinaryOp, Span(|w|, |tok|))] <= st.errs
  {
    hide IsBlanks, StartsBlank, SkipBlanks, Misplaced, P.FirstName, P.NextNot, P.NextMisplaced, P.AndLoop, P.OrLoop;
    var st := St(0, w + (tok + y), []);
    MisplacedNext(tok, y);
    BlanksSkip(st, w, tok + y);
    var kind := if tok == "NOT" then ExprFoundUnaryOp else ExprFoundBinaryOp;
    var st1 := SkipBlanks(st).Advance(|tok|).Report(kind, Span(|w|, |tok|));
    assert P.ParseBasic(lib, st) == Ok(st1, P.ExprResult.Error);
    assert st1.errs == [Diagnostic(kind, Span(|w|, |tok|))];
    ErrorStays(lib, st1);
    var st2 := P.AndLoop(lib, st1, P.ExprResult.Error).0;
    assert P.ParseAnds(lib, st) == (st2, P.ExprResult.Error);
    ErrorStaysOr(lib, st2);
    assert P.ParseOrs(lib, st) == P.OrLoop(lib, st2, P.ExprResult.Error);
  }

  // ----- ends of input -----

  /** Nothing but blanks: an expression was expected. */
  lemma NothingReported(lib: Lib, w: string)
    requires IsBlanks(w)
    ensures P.Parse(lib, w)
            == (St(|w|, "", [Diagnostic(ExpectedExpr, Span(0, |w|))]), P.ExprResult.Error)
  {
    hide IsBlanks, SkipBlanks, P.AndLoop, P.OrLoop, RT.NoAnd, RT.NoOr, P.FirstName;
    var st := St(0, w, []);
    var st1 := St(0, w, [Diagnostic(ExpectedExpr, Span(0, |w|))]);
    assert w + "" == w;
    BlanksSkip(st, w, "");
    EmptyIsNoName();
    assert P.ParseBasic(lib, st) == Backtrack;
    EndIsNoOperator(w);
    RT.LoopsStop(lib, st1, P.ExprResult.Error);
    assert [] + st1.errs == st1.errs;
    assert P.ParseOrs(lib, st) == (st1, P.ExprResult.Error);
    ReadToEnd(lib, w, st1, P.ExprResult.Error, w);
  }

  lemma EmptyIsNoName()
    ensures P.FirstName("", P.SET_NAMES) == None
  {
    hide P.SetKeyword;
    forall i | 0 <= i < |P.SET_NAMES|
      ensures !(P.SetKeyword(P.SET_NAMES[i]) <= "")
    {
      KeywordStarts(P.SET_NAMES[i]);
    }
    RT.FirstNameNone("", P.SET_NAMES);
  }

  /** What stands behind an expression and is no operator is reported, and not read; the tree
      is that of the expression. */
  lemma TrailingReported(lib: Lib, a: Script, w: string, z: string)
    requires Correct(lib, a) && IsBlanks(w) && z != "" && !StartsBlank(z)
    requires z[0] !in "|&+-aoAO"
    ensures var input := Text(a) + (w + z);
            P.Parse(lib, input)
            == (St(|Text(a)|, w + z, [Diagnostic(ExpectedEndOfExpression, Span(|Text(a)|, |w| + |z|))]),
                P.Valid(Tree(a, 0)))
  {
    hide IsBlanks, SkipBlanks, StartsBlank, Correct, Text, Tree, P.ParseOrs, P.OrLoop, P.AndLoop, RT.NoAnd, RT.NoOr;
    NoOperatorAhead(w, z);
    var st := OrsReads(lib, a, St(0, Text(a) + (w + z), []), w + z);
    RT.LoopsStop(lib, st, P.Valid(Tree(a, 0)));
    BlanksSkip(st, w, z);
    var d := Diagnostic(ExpectedEndOfExpression, Span(|Text(a)|, |w| + |z|));
    assert st.Report(d.kind, d.span).errs == [d];
  }

  lemma NoOperatorAhead(w: string, z: string)
    requires IsBlanks(w) && z != "" && !StartsBlank(z) && z[0] !in "|&+-aoAO"
    ensures RT.NoAnd(w + z) && RT.NoOr(w + z)
  {
    hide IsBlanks, StartsBlank, MR.DropBlanks;
    BlanksDrop(w, z);
    NoOperatorHere(z);
  }

  lemma NoOperatorHere(z: string)
    requires z != "" && z[0] !in "|&+-aoAO"
    ensures P.NextAnd(z) == None && P.NextOr(z) == None
  {
    var ops := "|&+-aoAO";
    assert ops[0] in ops && ops[1] in ops && ops[2] in ops && ops[3] in ops && ops[4] in ops && ops[5] in ops
           && ops[6] in ops && ops[7] in ops;
  }

  /** A parenthesis that is missing at the end is reported there, and is taken as given. */
  lemma MissingParenthesisReported(lib: Lib, before: string, a: Script, end: string)
    requires IsBlanks(before) && Correct(lib, a) && IsBlanks(end)
    ensures var input := before + ("(" + (Text(a) + end));
            P.Parse(lib, input)
            == (St(|input|, "", [Diagnostic(ExpectedCloseParenthesis, Span(|before| + 1 + |Text(a)|, 0))]),
                P.Valid(Parens(Tree(a, |before| + 1))))
  {
    hide IsBlanks, SkipBlanks, StartsBlank, Correct, Text, Tree, P.ParseOrs, P.OrLoop, P.AndLoop, RT.NoAnd, RT.NoOr,
         P.ExpectChar, P.ParseBasic, P.Parse;
    var y := Text(a) + end;
    var input := before + ("(" + y);
    EndIsNoOperator(end);
    var st := OrsReads(lib, a, St(|before| + 1, y, []), end);
    RT.LoopsStop(lib, st, P.Valid(Tree(a, |before| + 1)));
    var st1 := NoCloseAtEnd(st, end);
    EnclosedReads(lib, St(0, input, []), before, y, st, st1, Tree(a, |before| + 1));
    BasicAlone(lib, input, st1, P.Valid(Parens(Tree(a, |before| + 1))), end);
  }

  lemma NoCloseAtEnd(st: St, end: string) returns (st1: St)
    requires st.rest == end && IsBlanks(end) && st.errs == []
    ensures P.ExpectChar(st, ')', ExpectedCloseParenthesis) == st1
    ensures st1 == St(st.off, end, [Diagnostic(ExpectedCloseParenthesis, Span(st.off, 0))])
  {
    hide IsBlanks, SkipBlanks;
    assert end + "" == end;
    BlanksSkip(st, end, "");
    st1 := P.ExpectChar(st, ')', ExpectedCloseParenthesis);
  }

  /** An input that is one basic expression and blanks. */
  lemma BasicAlone(lib: Lib, input: string, st: St, r: P.ExprResult, end: string)
    requires P.ParseBasic(lib, St(0, input, [])) == Ok(st, r) && st.rest == end && IsBlanks(end)
    requires st.off + |end| == |input|
    ensures P.Parse(lib, input) == (St(|input|, "", st.errs), r)
  {
    hide P.ParseBasic, P.OrLoop, P.AndLoop, RT.NoAnd, RT.NoOr, IsBlanks, P.Parse, Follows;
    EndIsNoOperator(end);
    RT.LoopsStop(lib, st, r);
    assert P.ParseOrs(lib, St(0, input, [])) == (st, r);
    ReadToEnd(lib, input, st, r, end);
  }
}
